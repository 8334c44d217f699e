/** Progress of failure-free EPaxos: if no broadcast is cut short, then once no message is in flight every
    proposed instance is committed at every replica. */
module EpaxosQuiet {
  import opened State
  import opened Sequences
  import opened Sets
  import opened Traces
  import opened DepGraph
  import opened Options
  import opened EpaxosTypes
  import opened EpaxosSpec
  import opened EpaxosProtocol
  import opened EpaxosBasic
  import opened EpaxosRounds
  import opened EpaxosVotes
  import opened EpaxosExecution
  import opened EpaxosSafety
  import opened EpaxosTheorems
  import opened SccSearch

  // ---------------------------------------------------------------- full broadcasts

  /** Every broadcast reaches as many peers as the code wants: enough of them are alive. */
  ghost predicate Full(g: Global, step: Step)
    requires Enabled(g, step)
  {
    match step
    case Proposing(s, c, waits, now, targets) => |targets| == FastQuorumSize(g.f) - 1
    case Delivering(p, now, targets) =>
      p.msg.PreAcceptReply? || p.msg.AcceptReply? ==>
        EnoughFor(g.nodes[p.dst].rs, Handle(g.nodes[p.dst].rs, p.msg, now, targets).st, p.msg.id, targets)
    case Executing(s, space, ex) => true
  }

  ghost predicate FullRun(run: seq<Global>, steps: seq<Step>) {
    IsRun(run, steps) && forall i :: 0 <= i < |steps| ==> Enabled(run[i], steps[i]) && Full(run[i], steps[i])
  }

  lemma {:induction false} DistinctMembers(xs: seq<nat>)
    requires forall i, j :: 0 <= i < j < |xs| ==> xs[i] != xs[j]
    ensures |Members(xs)| == |xs|
  {
    if xs != [] {
      DistinctMembers(xs[1..]);
      assert Members(xs) == {xs[0]} + Members(xs[1..]);
      assert xs[0] !in Members(xs[1..]);
    }
  }

  /** A broadcast to n - 1 peers reaches all of them. */
  lemma EveryPeer(st: RState, limit: int, targets: seq<nat>, n: nat)
    requires TargetsOk(st, limit, targets) && st.n == n && st.id < n && |targets| == n - 1
    ensures forall a: nat :: a < n && a != st.id ==> a in targets
  {
    DistinctMembers(targets);
    var peers := Range(n) - {st.id};
    assert Members(targets) <= peers && |peers| == n - 1;
    SubsetCardinality(Members(targets), peers);
    forall a: nat | a < n && a != st.id ensures a in targets {
      assert a in peers && a in Members(targets);
    }
  }

  // ---------------------------------------------------------------- one instance

  ghost predicate Replied(g: Global, id: Id, a: nat) {
    exists q :: q in g.sent && IsReply(q, id) && q.src == a
  }

  predicate IsAccept(p: Packet, id: Id) {
    p.msg.Accept? && p.msg.id == id
  }

  predicate IsAcceptReply(p: Packet, id: Id) {
    p.msg.AcceptReply? && p.msg.id == id
  }

  predicate IsCommit(p: Packet, id: Id) {
    p.msg.Commit? && p.msg.id == id
  }

  ghost predicate AcceptReplied(g: Global, id: Id, a: nat) {
    exists q :: q in g.sent && IsAcceptReply(q, id) && q.src == a
  }

  ghost predicate CommitSent(g: Global, id: Id, a: nat) {
    exists q :: q in g.sent && IsCommit(q, id) && q.dst == a
  }

  ghost function AcceptAsked(sent: set<Packet>, id: Id): set<nat> {
    set p | p in sent && IsAccept(p, id) :: p.dst
  }

  ghost function AcceptCounted(g: Global, id: Id): set<nat> {
    set p | p in g.sent && p !in g.net && IsAcceptReply(p, id) :: p.src
  }

  ghost predicate Answered(g: Global, id: Id) {
    && (forall p :: p in g.sent && p !in g.net && IsPreAccept(p, id) ==> Replied(g, id, p.dst))
    && (forall p :: p in g.sent && p !in g.net && IsAccept(p, id) ==> AcceptReplied(g, id, p.dst))
    && (forall p :: p in g.sent && p !in g.net && IsCommit(p, id) ==> CommittedAt(g, p.dst, id))
  }

  ghost predicate AcceptPhase(g: Global, id: Id)
    requires Started(g, id)
  {
    && (Open(Lb(g, id)) ==> Lb(g, id).acceptOKs == 0)
    && (Lb(g, id).status == ACCEPTED ==>
          |AcceptAsked(g.sent, id)| >= g.n / 2 && Lb(g, id).acceptOKs == |AcceptCounted(g, id)|
          && Lb(g, id).acceptOKs + 1 <= g.n / 2)
  }

  ghost predicate CommitPhase(g: Global, id: Id)
    requires Started(g, id)
  {
    Lb(g, id).status == COMMITTED ==> forall a: nat :: a < g.n && a != id.replica ==> CommitSent(g, id, a)
  }

  ghost predicate Progress(g: Global, id: Id)
    requires Started(g, id)
  {
    |Asked(g.sent, id)| == FastQuorumSize(g.f) - 1 && Answered(g, id) && AcceptPhase(g, id) && CommitPhase(g, id)
  }

  ghost predicate AllProgress(g: Global) {
    forall id :: Started(g, id) ==> Progress(g, id)
  }

  // ---------------------------------------------------------------- when nothing is in flight

  lemma QuietIsCommitted(g: Global, id: Id)
    requires Inv(g) && Started(g, id) && Progress(g, id) && g.net == {}
    ensures Lb(g, id).status == COMMITTED
    ensures forall s: nat :: s < g.n ==> CommittedAt(g, s, id)
  {
    hide Votes, Executions, Entries, Local, RepliesOk, PendingOk, Merged, AcceptsOk, CommittedAt;
    assert RoundOk(g, id);
    QuietIsFixed(g, id);
    OpenOrFixed(g, id);
    QuietIsNotAccepted(g, id);
    forall s: nat | s < g.n ensures CommittedAt(g, s, id) {
      if s == id.replica {
        LeaderCommitted(g, id);
      } else {
        assert CommitSent(g, id, s);
        var q :| q in g.sent && IsCommit(q, id) && q.dst == s;
      }
    }
  }

  lemma LeaderCommitted(g: Global, id: Id)
    requires Basic(g) && Started(g, id) && Lb(g, id).status == COMMITTED
    ensures CommittedAt(g, id.replica, id)
  {
    hide Entries, PacketOk, Local;
  }

  lemma QuietIsFixed(g: Global, id: Id)
    requires Basic(g) && Started(g, id) && RoundOk(g, id) && Progress(g, id) && g.net == {}
    ensures Fixed(Lb(g, id))
  {
    hide Entries, PacketOk, Local, Leaders, AcceptPhase, CommitPhase, Merged, AcceptsOk, PendingOk;
    forall a | a in Asked(g.sent, id) ensures a in Counted(g, id) {
      var p :| p in g.sent && IsPreAccept(p, id) && p.dst == a;
      assert Replied(g, id, a);
    }
    SubsetCardinality(Asked(g.sent, id), Counted(g, id));
    OpenOrFixed(g, id);
  }

  lemma QuietIsNotAccepted(g: Global, id: Id)
    requires Started(g, id) && Progress(g, id) && g.net == {}
    ensures Lb(g, id).status != ACCEPTED
  {
    forall a | a in AcceptAsked(g.sent, id) ensures a in AcceptCounted(g, id) {
      var p :| p in g.sent && IsAccept(p, id) && p.dst == a;
      assert AcceptReplied(g, id, a);
    }
    SubsetCardinality(AcceptAsked(g.sent, id), AcceptCounted(g, id));
  }

  // ---------------------------------------------------------------- steps about other instances

  lemma ProgressOther(g: Global, g': Global, id: Id)
    requires SameTraffic(g, g', id) && g'.f == g.f && g'.n == g.n && Keeps(g, g')
    requires Started(g, id) && Started(g', id) && Lb(g', id) == Lb(g, id) && Progress(g, id)
    ensures Progress(g', id)
  {
    hide CommittedAt;
    SameSets(g, g', id);
    assert AcceptAsked(g'.sent, id) == AcceptAsked(g.sent, id);
    assert AcceptCounted(g', id) == AcceptCounted(g, id);
    SameReplies(g, g', id);
  }

  lemma SameReplies(g: Global, g': Global, id: Id)
    requires forall p: Packet :: p.msg.id == id && p in g.sent ==> p in g'.sent
    ensures forall a :: Replied(g, id, a) ==> Replied(g', id, a)
    ensures forall a :: AcceptReplied(g, id, a) ==> AcceptReplied(g', id, a)
    ensures forall a :: CommitSent(g, id, a) ==> CommitSent(g', id, a)
  {
  }

  lemma TouchProgress(g: Global, g': Global, s: nat, id: Id)
    requires Basic(g) && Basic(g') && AllProgress(g) && Touch(g, g', s, id) && Keeps(g, g')
    requires forall x :: x != id ==> SameTraffic(g, g', x)
    requires Started(g', id) ==> Progress(g', id)
    ensures AllProgress(g')
  {
    hide Basic, Progress, Keeps;
    forall x | Started(g', x) ensures Progress(g', x) {
      if x != id {
        OtherStays(g, g', s, id, x);
        OtherSpaces(g, g', s, id);
        ProgressOther(g, g', x);
      }
    }
  }

  // ---------------------------------------------------------------- propose

  lemma ProgressPropose(g: Global, g': Global, s: nat, c: Command, waits: bool, now: int, targets: seq<nat>)
    requires Inv(g) && AllProgress(g) && ProposeStep(g, g', s, c, waits, now, targets) && Keeps(g, g')
    requires |targets| == FastQuorumSize(g.f) - 1
    ensures AllProgress(g')
  {
    ProposeFacts(g, g', s, c, waits, now, targets);
    var rs, id := g.nodes[s].rs, NextId(g.nodes[s].rs);
    var m := PreAccept(id, s, s, [c], -1, g'.nodes[s].rs.space[id].lb.value.originalDeps);
    NewAcceptOKs(rs, c, waits, now, targets);
    Unknown(g, id);
    hide *;
    BasicPropose(g, g', s, c, waits, now, targets);
    OtherSpaces(g, g', s, id);
    NewLeaderStarted(g', s, id, c);
    AskedAre(g, g', rs, FastQuorumSize(g.f) - 1, targets, m);
    DistinctTargets(rs, FastQuorumSize(g.f) - 1, targets);
    NewProgress(g, g', id, Members(targets));
    TouchProgress(g, g', s, id);
  }

  lemma NewAcceptOKs(st: RState, c: Command, waits: bool, now: int, targets: seq<nat>)
    requires Local(st)
    ensures var o := Propose(st, [c], waits, now, targets);
      NextId(st) in o.st.space && o.st.space[NextId(st)].lb.Some? && o.st.space[NextId(st)].lb.value.acceptOKs == 0
  {
    hide UpdateAttributes, ConflictsKnown;
  }

  lemma DistinctTargets(st: RState, limit: int, targets: seq<nat>)
    requires TargetsOk(st, limit, targets)
    ensures |Members(targets)| == |targets|
  {
    DistinctMembers(targets);
  }

  /** The messages of a broadcast about a new instance. */
  lemma AskedAre(g: Global, g': Global, st: RState, limit: int, targets: seq<nat>, m: Msg)
    requires TargetsOk(st, limit, targets) && m.PreAccept? && (forall p :: p in g.sent ==> p.msg.id != m.id)
    requires g'.sent == g.sent + SetOf(Broadcast(st.id, targets, m)) && g'.net == g.net + SetOf(Broadcast(st.id, targets, m))
    requires g.net <= g.sent
    ensures Asked(g'.sent, m.id) == Members(targets)
    ensures forall p :: p in g'.sent && p.msg.id == m.id ==> p.msg.PreAccept? && p in g'.net
    ensures forall x :: x != m.id ==> SameTraffic(g, g', x)
  {
    var out := Broadcast(st.id, targets, m);
    forall a | a in Members(targets) ensures a in Asked(g'.sent, m.id) {
      var i :| 0 <= i < |targets| && targets[i] == a;
      assert out[i] in SetOf(out) && IsPreAccept(out[i], m.id);
    }
  }

  lemma NewProgress(g: Global, g': Global, id: Id, asked: set<nat>)
    requires Started(g', id) && Asked(g'.sent, id) == asked && |asked| == FastQuorumSize(g'.f) - 1
    requires Open(Lb(g', id)) && Lb(g', id).acceptOKs == 0
    requires forall p :: p in g'.sent && p.msg.id == id ==> p.msg.PreAccept? && p in g'.net
    ensures Progress(g', id)
  {
  }

  // ---------------------------------------------------------------- a message arrives

  /** Delivering p and sending out, all about one instance. */
  ghost predicate Exchange(g: Global, g': Global, p: Packet, out: set<Packet>) {
    && p in g.net && g.net <= g.sent
    && (forall q :: q in out ==> q.msg.id == p.msg.id && q !in g.sent)
    && g'.net == g.net - {p} + out && g'.sent == g.sent + out
  }

  lemma ExchangeTraffic(g: Global, g': Global, p: Packet, out: set<Packet>)
    requires Exchange(g, g', p, out)
    ensures forall x :: x != p.msg.id ==> SameTraffic(g, g', x)
  {
  }

  /** What was answered stays answered, and p is answered now. */
  lemma AnsweredMore(g: Global, g': Global, p: Packet, out: set<Packet>)
    requires Exchange(g, g', p, out) && Answered(g, p.msg.id) && Keeps(g, g')
    requires p.msg.PreAccept? ==> Replied(g', p.msg.id, p.dst)
    requires p.msg.Accept? ==> AcceptReplied(g', p.msg.id, p.dst)
    requires p.msg.Commit? ==> CommittedAt(g', p.dst, p.msg.id)
    ensures Answered(g', p.msg.id)
  {
    hide CommittedAt;
    SameReplies(g, g', p.msg.id);
  }

  lemma QuietAsked(g: Global, g': Global, p: Packet, out: set<Packet>)
    requires Exchange(g, g', p, out) && forall q :: q in out ==> !q.msg.PreAccept? && !q.msg.Accept?
    ensures Asked(g'.sent, p.msg.id) == Asked(g.sent, p.msg.id)
    ensures AcceptAsked(g'.sent, p.msg.id) == AcceptAsked(g.sent, p.msg.id)
  {
  }

  lemma QuietAccepts(g: Global, g': Global, p: Packet, out: set<Packet>)
    requires Exchange(g, g', p, out) && !p.msg.AcceptReply?
    ensures AcceptCounted(g', p.msg.id) == AcceptCounted(g, p.msg.id)
  {
  }

  /** At a peer nothing changes for the leader. */
  lemma PeerProgress(g: Global, g': Global, p: Packet, out: set<Packet>)
    requires Exchange(g, g', p, out) && Started(g, p.msg.id) && Started(g', p.msg.id) && Progress(g, p.msg.id) && Keeps(g, g')
    requires Lb(g', p.msg.id) == Lb(g, p.msg.id) && g'.f == g.f && g'.n == g.n
    requires !p.msg.AcceptReply? && forall q :: q in out ==> !q.msg.PreAccept? && !q.msg.Accept?
    requires p.msg.PreAccept? ==> Replied(g', p.msg.id, p.dst)
    requires p.msg.Accept? ==> AcceptReplied(g', p.msg.id, p.dst)
    requires p.msg.Commit? ==> CommittedAt(g', p.dst, p.msg.id)
    ensures Progress(g', p.msg.id)
  {
    hide CommittedAt, Answered, Exchange, Asked, AcceptAsked, AcceptCounted, Keeps;
    AnsweredMore(g, g', p, out);
    QuietAsked(g, g', p, out);
    QuietAccepts(g, g', p, out);
    MoreSent(g, g', p, out);
    SameReplies(g, g', p.msg.id);
  }

  lemma MoreSent(g: Global, g': Global, p: Packet, out: set<Packet>)
    requires Exchange(g, g', p, out)
    ensures g.sent <= g'.sent
  {
  }

  lemma OneReply(g: Global, q: Packet)
    requires q in g.sent
    ensures q.msg.PreAcceptReply? ==> Replied(g, q.msg.id, q.src)
    ensures q.msg.AcceptReply? ==> AcceptReplied(g, q.msg.id, q.src)
  {
    assert IsReply(q, q.msg.id) || IsAcceptReply(q, q.msg.id) || !(q.msg.PreAcceptReply? || q.msg.AcceptReply?);
  }

  /** At a peer of the leader, the leader's entry stays. */
  lemma LeaderUntouched(g: Global, g': Global, s: nat, id: Id)
    requires Touch(g, g', s, id) && id.replica != s && Started(g, id)
    ensures Started(g', id) && Lb(g', id) == Lb(g, id) && g'.f == g.f && g'.n == g.n
  {
  }

  lemma PeerKeepsProgress(g: Global, g': Global, p: Packet, out: set<Packet>)
    requires Basic(g) && Basic(g') && AllProgress(g) && Touch(g, g', p.dst, p.msg.id) && Keeps(g, g')
    requires Exchange(g, g', p, out) && Started(g, p.msg.id) && p.msg.id.replica != p.dst
    requires !p.msg.AcceptReply? && forall q :: q in out ==> !q.msg.PreAccept? && !q.msg.Accept?
    requires p.msg.PreAccept? ==> Replied(g', p.msg.id, p.dst)
    requires p.msg.Accept? ==> AcceptReplied(g', p.msg.id, p.dst)
    requires p.msg.Commit? ==> CommittedAt(g', p.dst, p.msg.id)
    ensures AllProgress(g')
  {
    hide *;
    LeaderUntouched(g, g', p.dst, p.msg.id);
    ProgressAt(g, p.msg.id);
    PeerProgress(g, g', p, out);
    ExchangeTraffic(g, g', p, out);
    TouchProgress(g, g', p.dst, p.msg.id);
  }

  lemma PreAcceptProgress(g: Global, g': Global, p: Packet, now: int, targets: seq<nat>)
    requires Inv(g) && AllProgress(g) && DeliverStep(g, g', p, now, targets) && p.msg.PreAccept? && Keeps(g, g')
    ensures AllProgress(g')
  {
    hide *;
    InvParts(g);
    PreAcceptStep(g, g', p, now, targets);
    RoundsPreAccept(g, g', p, now, targets);
    var q := PreAcceptAnswer(g, g', p, now, targets);
    OneReply(g', q);
    PeerKeepsProgress(g, g', p, {q});
  }

  lemma PreAcceptAnswer(g: Global, g': Global, p: Packet, now: int, targets: seq<nat>) returns (q: Packet)
    requires Inv(g) && DeliverStep(g, g', p, now, targets) && p.msg.PreAccept?
    ensures Exchange(g, g', p, {q}) && q.msg.PreAcceptReply? && q.msg.id == p.msg.id && q.src == p.dst && q in g'.sent
    ensures Started(g, p.msg.id) && p.msg.id.replica != p.dst
    ensures p.dst < |g'.nodes| && p.msg.id in Sp(g', p.dst) && q.msg.deps == Sp(g', p.dst)[p.msg.id].deps
  {
    hide Inv, Basic, Rounds, DeliverStep, HandlePreAccept, Touch, Evolves, PreAcceptResult, Exchange, Started, IsReply, ConflictsKnown;
    InvParts(g);
    PreAcceptStep(g, g', p, now, targets);
    RoundsPreAccept(g, g', p, now, targets);
    var o := HandlePreAccept(g.nodes[p.dst].rs, p.msg, now);
    PeerSays(g, p, now, o);
    q := o.out[0];
    ReplyMeans(q, p.msg.id);
    PreAcceptExchange(g, g', p, now, targets);
  }

  lemma ReplyMeans(q: Packet, id: Id)
    requires IsReply(q, id)
    ensures q.msg.PreAcceptReply? && q.msg.id == id
  {
  }

  lemma InvParts(g: Global)
    requires Inv(g)
    ensures Basic(g) && Rounds(g)
  {
  }

  lemma ProgressAt(g: Global, id: Id)
    requires AllProgress(g) && Started(g, id)
    ensures Progress(g, id)
  {
  }

  lemma PreAcceptExchange(g: Global, g': Global, p: Packet, now: int, targets: seq<nat>)
    requires Inv(g) && DeliverStep(g, g', p, now, targets) && p.msg.PreAccept?
    requires p.dst < |g.nodes| && CanHandle(g.nodes[p.dst].rs, p.msg)
    requires var out := HandlePreAccept(g.nodes[p.dst].rs, p.msg, now).out;
      |out| == 1 && IsReply(out[0], p.msg.id) && out[0].src == p.dst
    ensures var q := HandlePreAccept(g.nodes[p.dst].rs, p.msg, now).out[0];
      Exchange(g, g', p, {q}) && !q.msg.PreAccept? && !q.msg.Accept? && !q.msg.AcceptReply? && q in g'.sent
  {
    hide Rounds, Votes, Executions, Leaders, Entries, PacketOk, Local, HandlePreAccept;
    PendingAt(g, p);
    var out := HandlePreAccept(g.nodes[p.dst].rs, p.msg, now).out;
    assert SetOf(out) == {out[0]};
  }

  // ---------------------------------------------------------------- Accept and Commit

  lemma AcceptAnswer(g: Global, g': Global, p: Packet, now: int, targets: seq<nat>) returns (q: Packet)
    requires Inv(g) && DeliverStep(g, g', p, now, targets) && p.msg.Accept?
    ensures Exchange(g, g', p, {q}) && q.msg.AcceptReply? && q.msg.id == p.msg.id && q.src == p.dst && q in g'.sent
    ensures Started(g, p.msg.id) && p.msg.id.replica != p.dst
  {
    hide Rounds, Votes, Executions, Leaders, Entries, Local, RoundOk;
    NotAnsweredYet(g, p);
    LeaderAt(g, p);
    var out := HandleAccept(g.nodes[p.dst].rs, p.msg, now).out;
    q := out[0];
    assert SetOf(out) == {q};
  }

  lemma AcceptProgress(g: Global, g': Global, p: Packet, now: int, targets: seq<nat>)
    requires Inv(g) && AllProgress(g) && DeliverStep(g, g', p, now, targets) && p.msg.Accept? && Keeps(g, g')
    ensures AllProgress(g')
  {
    hide *;
    InvParts(g);
    RoundsAccept(g, g', p, now, targets);
    var q := AcceptAnswer(g, g', p, now, targets);
    OneReply(g', q);
    PeerKeepsProgress(g, g', p, {q});
  }

  lemma CommitArrives(g: Global, g': Global, p: Packet, now: int, targets: seq<nat>)
    requires Inv(g) && DeliverStep(g, g', p, now, targets) && p.msg.Commit?
    ensures Exchange(g, g', p, {}) && CommittedAt(g', p.dst, p.msg.id)
    ensures Started(g, p.msg.id) && p.msg.id.replica != p.dst
  {
    hide Rounds, Votes, Executions, Leaders, Entries, Local, RoundOk, UpdateConflicts, UpdateCommitted, Indexed;
    LeaderAt(g, p);
    CommitIsLate(g, p);
    var rs := g.nodes[p.dst].rs;
    if CommitIgnored(rs, p.msg) {
      CommitIgnoredLocal(rs, p.msg, now);
    } else {
      CommitLocal(rs, p.msg, now);
    }
    assert SetOf([]) == {};
  }

  lemma CommitProgress(g: Global, g': Global, p: Packet, now: int, targets: seq<nat>)
    requires Inv(g) && AllProgress(g) && DeliverStep(g, g', p, now, targets) && p.msg.Commit? && Keeps(g, g')
    ensures AllProgress(g')
  {
    hide *;
    InvParts(g);
    RoundsCommit(g, g', p, now, targets);
    CommitArrives(g, g', p, now, targets);
    PeerKeepsProgress(g, g', p, {});
  }

  // ---------------------------------------------------------------- replies at the leader

  lemma TallyKeepsAccepts(st: RState, inst: Instance, lb: LeaderBookkeeping, m: Msg)
    requires m.PreAcceptReply? && |lb.deps| == |m.deps| == st.n == |st.committedUpTo|
    requires |lb.committedDeps| == |m.committedDeps| == |inst.deps| == st.n
    ensures Tally(st, inst, lb, m).0.acceptOKs == lb.acceptOKs
  {
  }

  lemma DecideKeepsAccepts(st: RState, id: Id, lb: LeaderBookkeeping, allCommitted: bool, targets: seq<nat>)
    requires id in st.space && id.replica < |st.committedUpTo| && st.committedUpTo[id.replica] >= -1
    ensures var o := Decide(st, id, lb, allCommitted, targets);
      id in o.st.space && o.st.space[id].lb.Some? && o.st.space[id].lb.value.acceptOKs == lb.acceptOKs
  {
  }

  /** What a PreAcceptReply changes besides ReplyOutcome. */
  lemma ReplyExtra(st: RState, m: Msg, targets: seq<nat>)
    requires CanHandle(st, m) && m.PreAcceptReply? && LeaderOk(st.n, m.id, st.space[m.id])
    ensures var o := HandlePreAcceptReply(st, m, targets);
      m.id in o.st.space && o.st.space[m.id].lb.Some?
      && o.st.space[m.id].lb.value.acceptOKs == st.space[m.id].lb.value.acceptOKs
  {
    hide ConflictsKnown, Tally, Decide, LeaderOk;
    var inst, lb := st.space[m.id], st.space[m.id].lb.value;
    var st1 := st.(maxRecvBallot := Max(st.maxRecvBallot, m.ballot));
    TallyKeepsAccepts(st1, inst, lb, m);
    var (lb1, allCommitted) := Tally(st1, inst, lb, m);
    DecideKeepsAccepts(st1, m.id, lb1, allCommitted, targets);
  }

  /** An AcceptReply answers an Accept. */
  lemma AcceptBefore(g: Global, id: Id, q: Packet) returns (a: Packet)
    requires RoundOkAt(g, id) && q in g.sent && q.msg.AcceptReply? && q.msg.id == id
    ensures a in g.sent && a.msg.Accept? && a.msg.id == id
  {
    assert AcceptArrived(g, id, q.src);
    a :| a in g.sent && a !in g.net && a.msg.Accept? && a.msg.id == id && a.dst == q.src;
  }

  ghost predicate RoundOkAt(g: Global, id: Id) {
    Started(g, id) && RoundOk(g, id)
  }

  /** Before the decision no Accept, AcceptReply or Commit has been sent. */
  lemma NothingLate(g: Global, id: Id)
    requires Basic(g) && Started(g, id) && RoundOk(g, id) && Open(Lb(g, id))
    ensures forall q :: q in g.sent && q.msg.id == id ==> !q.msg.Accept? && !q.msg.Commit? && !q.msg.AcceptReply?
  {
    hide Leaders, Entries, Local, PacketOk, RepliesOk, PendingOk, TallyCounts, Merged;
    NotYetDecided(g, id);
    forall q | q in g.sent && q.msg.id == id ensures !q.msg.AcceptReply? {
      if q.msg.AcceptReply? {
        var a := AcceptBefore(g, id, q);
      }
    }
  }

  ghost predicate Reaches(out: set<Packet>, a: nat) {
    exists q :: q in out && q.dst == a
  }

  lemma BroadcastMembers(st: RState, limit: int, targets: seq<nat>, m: Msg)
    requires TargetsOk(st, limit, targets) && st.id < st.n
    ensures forall q :: q in SetOf(Broadcast(st.id, targets, m)) ==> q.msg == m
    ensures forall a :: a in targets ==> Reaches(SetOf(Broadcast(st.id, targets, m)), a)
    ensures |Members(targets)| == |targets|
    ensures |targets| == st.n - 1 ==> forall a: nat :: a < st.n && a != st.id ==> a in targets
  {
    DistinctMembers(targets);
    var out := Broadcast(st.id, targets, m);
    forall a | a in targets ensures Reaches(SetOf(out), a) {
      var i :| 0 <= i < |targets| && targets[i] == a;
      assert out[i] in SetOf(out) && out[i].dst == a;
    }
    if |targets| == st.n - 1 {
      EveryPeer(st, limit, targets, st.n);
    }
  }

  /** What the leader sends when it moves on. */
  ghost predicate Sends(out: set<Packet>, lb: LeaderBookkeeping, targets: seq<nat>) {
    && (Open(lb) ==> out == {})
    && (lb.status == ACCEPTED ==> forall q :: q in out ==> q.msg.Accept?)
    && (lb.status == COMMITTED ==> forall q :: q in out ==> q.msg.Commit?)
    && (Fixed(lb) ==> forall a :: a in targets ==> Reaches(out, a))
  }

  lemma ReplyArrives(g: Global, g': Global, p: Packet, now: int, targets: seq<nat>) returns (out: set<Packet>)
    requires Inv(g) && DeliverStep(g, g', p, now, targets) && p.msg.PreAcceptReply?
    ensures Started(g, p.msg.id) && Open(Lb(g, p.msg.id)) && p.dst == p.msg.id.replica && RoundOk(g, p.msg.id)
    ensures Started(g', p.msg.id) && Basic(g) && Basic(g') && Touch(g, g', p.dst, p.msg.id)
    ensures g.n == 2 * g.f + 1 && g.f >= 1 && |Members(targets)| == |targets|
    ensures |targets| == g.n - 1 ==> forall a: nat :: a < g.n && a != p.dst ==> a in targets
    ensures Exchange(g, g', p, out) && Lb(g', p.msg.id).acceptOKs == Lb(g, p.msg.id).acceptOKs
    ensures Open(Lb(g', p.msg.id)) || Fixed(Lb(g', p.msg.id))
    ensures Sends(out, Lb(g', p.msg.id), targets)
  {
    hide Rounds, Votes, Executions, Leaders, Entries, Local, RoundOk, HandlePreAcceptReply, LeaderOk, Touch, Evolves, Reaches;
    var rs, id := g.nodes[p.dst].rs, p.msg.id;
    LeaderAt(g, p);
    ReplyFindsOpen(g, p);
    BasicReply(g, g', p, now, targets);
    ReplyExtra(rs, p.msg, targets);
    NodeInRange(g, p.dst);
    var o := HandlePreAcceptReply(rs, p.msg, targets);
    out := SetOf(o.out);
    BroadcastMembers(rs, g.n, targets, if o.out == [] then p.msg else o.out[0].msg);
    assert Sp(g', p.dst) == o.st.space;
    assert Started(g', id) && Lb(g', id) == o.st.space[id].lb.value;
    OpenOrFixed(g', id);
    assert SetOf([]) == {};
    BroadcastHead(o.out, p.dst, targets);
  }

  lemma NodeInRange(g: Global, s: nat)
    requires Basic(g) && s < g.n
    ensures g.nodes[s].rs.id == s && g.nodes[s].rs.n == g.n
  {
    hide Leaders, Entries, Packets, Local;
  }

  /** All messages of a broadcast are one message. */
  lemma BroadcastHead(out: seq<Packet>, src: nat, targets: seq<nat>)
    ensures forall m: Msg :: out == Broadcast(src, targets, m) ==>
              (out == [] <==> targets == []) && (out != [] ==> out[0].msg == m)
  {
  }

  /** The leader goes on waiting, or asks for acceptance, or commits. */
  lemma ReplyMoves(g: Global, g': Global, p: Packet, targets: seq<nat>, out: set<Packet>)
    requires Basic(g) && Started(g, p.msg.id) && Started(g', p.msg.id) && Open(Lb(g, p.msg.id)) && RoundOk(g, p.msg.id)
    requires Progress(g, p.msg.id) && Keeps(g, g') && p.msg.PreAcceptReply? && g'.n == g.n && g'.f == g.f
    requires g.n == 2 * g.f + 1 && g.f >= 1
    requires Exchange(g, g', p, out) && Lb(g', p.msg.id).acceptOKs == Lb(g, p.msg.id).acceptOKs
    requires Open(Lb(g', p.msg.id)) || Fixed(Lb(g', p.msg.id))
    requires Sends(out, Lb(g', p.msg.id), targets)
    requires Lb(g', p.msg.id).status == ACCEPTED ==> |Members(targets)| >= g.n / 2
    requires Lb(g', p.msg.id).status == COMMITTED ==> forall a: nat :: a < g.n && a != p.msg.id.replica ==> a in targets
    ensures Progress(g', p.msg.id)
  {
    hide Basic, RoundOk, Keeps, CommittedAt, Answered, IsReply, IsPreAccept;
    var id := p.msg.id;
    NothingLate(g, id);
    AnsweredMore(g, g', p, out);
    ReplyAsked(g, g', p, out);
    QuietAccepts(g, g', p, out);
    assert AcceptCounted(g, id) == {};
    if Lb(g', id).status == ACCEPTED {
      forall a | a in Members(targets) ensures a in AcceptAsked(g'.sent, id) {
        assert Reaches(out, a);
        var q :| q in out && q.dst == a;
        assert IsAccept(q, id);
      }
      SubsetCardinality(Members(targets), AcceptAsked(g'.sent, id));
    } else if Lb(g', id).status == COMMITTED {
      AllCommitsSent(g, g', p, targets, out);
    }
  }

  lemma AllCommitsSent(g: Global, g': Global, p: Packet, targets: seq<nat>, out: set<Packet>)
    requires Started(g', p.msg.id) && Lb(g', p.msg.id).status == COMMITTED && Exchange(g, g', p, out)
    requires Sends(out, Lb(g', p.msg.id), targets)
    requires forall a: nat :: a < g.n && a != p.msg.id.replica ==> a in targets
    ensures forall a: nat :: a < g.n && a != p.msg.id.replica ==> CommitSent(g', p.msg.id, a)
  {
    forall a: nat | a < g.n && a != p.msg.id.replica ensures CommitSent(g', p.msg.id, a) {
      assert Reaches(out, a);
      var q :| q in out && q.dst == a;
      assert IsCommit(q, p.msg.id);
    }
  }

  lemma ReplyAsked(g: Global, g': Global, p: Packet, out: set<Packet>)
    requires Exchange(g, g', p, out) && forall q :: q in out ==> !q.msg.PreAccept?
    ensures Asked(g'.sent, p.msg.id) == Asked(g.sent, p.msg.id)
  {
  }

  /** The leader's moves have enough targets. */
  ghost predicate EnoughTargets(g: Global, g': Global, id: Id, targets: seq<nat>) {
    Started(g, id) && Started(g', id) ==>
      && (Lb(g, id).status != ACCEPTED && Lb(g', id).status == ACCEPTED ==> |targets| >= g.n / 2)
      && (Lb(g, id).status != COMMITTED && Lb(g', id).status == COMMITTED ==> |targets| == g.n - 1)
  }

  lemma ReplyProgress(g: Global, g': Global, p: Packet, now: int, targets: seq<nat>)
    requires Inv(g) && AllProgress(g) && DeliverStep(g, g', p, now, targets) && p.msg.PreAcceptReply? && Keeps(g, g')
    requires EnoughTargets(g, g', p.msg.id, targets)
    ensures AllProgress(g')
  {
    hide Inv, Basic, DeliverStep, AllProgress, Keeps, RoundOk, Progress, Touch, Exchange, Started, TargetsOk, IsReply, Sends;
    var out := ReplyArrives(g, g', p, now, targets);
    OtherSpaces(g, g', p.dst, p.msg.id);
    ProgressAt(g, p.msg.id);
    ReplyMoves(g, g', p, targets, out);
    ExchangeTraffic(g, g', p, out);
    TouchProgress(g, g', p.dst, p.msg.id);
  }

  // ---------------------------------------------------------------- AcceptReply

  lemma AcceptReplyExtra(st: RState, m: Msg, targets: seq<nat>)
    requires CanHandle(st, m) && m.AcceptReply? && m.id.replica == st.id && m.ballot == m.id.replica
    requires LeaderOk(st.n, m.id, st.space[m.id]) && Fixed(st.space[m.id].lb.value)
    ensures var o := HandleAcceptReply(st, m, targets);
      m.id in o.st.space && o.st.space[m.id].lb.Some?
      && var lb, lb' := st.space[m.id].lb.value, o.st.space[m.id].lb.value;
         if lb.status == COMMITTED then lb' == lb && o.out == []
         else if lb'.status == ACCEPTED then lb'.acceptOKs == lb.acceptOKs + 1 && lb'.acceptOKs + 1 <= st.n / 2 && o.out == []
         else lb'.status == COMMITTED
              && o.out == Broadcast(st.id, targets, CommitOf(m.id, lb'))
  {
    hide ConflictsKnown;
  }

  ghost function CommitOf(id: Id, lb: LeaderBookkeeping): Msg {
    Commit(id, id.replica, id.replica, lb.cmds, lb.seqno, lb.deps)
  }

  /** No two AcceptReplies about an instance come from one peer. */
  lemma OneAcceptReplyEach(g: Global, id: Id)
    requires Basic(g)
    ensures forall p, q :: p in g.sent && q in g.sent && IsAcceptReply(p, id) && IsAcceptReply(q, id) && p.src == q.src ==> p == q
  {
    hide Leaders, Entries, Local;
    forall p, q | p in g.sent && q in g.sent && IsAcceptReply(p, id) && IsAcceptReply(q, id) && p.src == q.src
      ensures p == q
    {
      assert PacketOk(g, p) && PacketOk(g, q);
    }
  }

  lemma OneMoreAccept(g: Global, g': Global, p: Packet, out: set<Packet>)
    requires Exchange(g, g', p, out) && p.msg.AcceptReply? && forall q :: q in out ==> !q.msg.AcceptReply?
    requires forall a, b | a in g.sent && b in g.sent && IsAcceptReply(a, p.msg.id) && IsAcceptReply(b, p.msg.id) && a.src == b.src :: a == b
    ensures |AcceptCounted(g', p.msg.id)| == |AcceptCounted(g, p.msg.id)| + 1
  {
    assert IsAcceptReply(p, p.msg.id);
    assert AcceptCounted(g', p.msg.id) == AcceptCounted(g, p.msg.id) + {p.src};
    assert p.src !in AcceptCounted(g, p.msg.id);
  }

  lemma AcceptReplyArrives(g: Global, g': Global, p: Packet, now: int, targets: seq<nat>) returns (out: set<Packet>)
    requires Inv(g) && DeliverStep(g, g', p, now, targets) && p.msg.AcceptReply?
    ensures Started(g, p.msg.id) && Fixed(Lb(g, p.msg.id)) && p.dst == p.msg.id.replica
    ensures Started(g', p.msg.id) && Basic(g) && Basic(g') && Touch(g, g', p.dst, p.msg.id)
    ensures |targets| == g.n - 1 ==> forall a: nat :: a < g.n && a != p.dst ==> a in targets
    ensures Exchange(g, g', p, out) && forall q :: q in out ==> q.msg.Commit?
    ensures var lb, lb' := Lb(g, p.msg.id), Lb(g', p.msg.id);
      if lb.status == COMMITTED then lb' == lb
      else if lb'.status == ACCEPTED then lb'.acceptOKs == lb.acceptOKs + 1 && lb'.acceptOKs + 1 <= g.n / 2
      else lb'.status == COMMITTED && forall a :: a in targets ==> Reaches(out, a)
  {
    hide Rounds, Votes, Executions, Leaders, Entries, Local, RoundOk, HandleAcceptReply, LeaderOk, Touch, Evolves, Reaches;
    var rs, id := g.nodes[p.dst].rs, p.msg.id;
    LeaderAt(g, p);
    AcceptReplyIsLate(g, p);
    BasicAcceptReply(g, g', p, now, targets);
    CommitsAbout(rs, p.msg, targets);
    AcceptReplyExtra(rs, p.msg, targets);
    NodeInRange(g, p.dst);
    var o := HandleAcceptReply(rs, p.msg, targets);
    out := SetOf(o.out);
    assert Sp(g', p.dst) == o.st.space;
    assert Started(g', id) && Lb(g', id) == o.st.space[id].lb.value;
    BroadcastMembers(rs, g.n, targets, CommitOf(id, Lb(g', id)));
  }

  lemma AcceptReplyMoves(g: Global, g': Global, p: Packet, targets: seq<nat>, out: set<Packet>)
    requires Basic(g) && Started(g, p.msg.id) && Started(g', p.msg.id) && Fixed(Lb(g, p.msg.id))
    requires Progress(g, p.msg.id) && Keeps(g, g') && p.msg.AcceptReply? && g'.n == g.n && g'.f == g.f
    requires Exchange(g, g', p, out) && forall q :: q in out ==> q.msg.Commit?
    requires var lb, lb' := Lb(g, p.msg.id), Lb(g', p.msg.id);
      if lb.status == COMMITTED then lb' == lb
      else if lb'.status == ACCEPTED then lb'.acceptOKs == lb.acceptOKs + 1 && lb'.acceptOKs + 1 <= g.n / 2
      else lb'.status == COMMITTED && forall a :: a in targets ==> Reaches(out, a)
    requires Lb(g, p.msg.id).status != COMMITTED && Lb(g', p.msg.id).status == COMMITTED ==>
      forall a: nat :: a < g.n && a != p.msg.id.replica ==> a in targets
    ensures Progress(g', p.msg.id)
  {
    hide Basic, Keeps, CommittedAt, Answered, IsAcceptReply, Reaches, AcceptCounted, Asked, AcceptAsked;
    var id := p.msg.id;
    AnsweredMore(g, g', p, out);
    QuietAsked(g, g', p, out);
    OneAcceptReplyEach(g, id);
    OneMoreAccept(g, g', p, out);
    MoreSent(g, g', p, out);
    SameReplies(g, g', id);
    if Lb(g, id).status != COMMITTED && Lb(g', id).status == COMMITTED {
      CommitsReach(g, g', p, targets, out);
    }
  }

  lemma CommitsReach(g: Global, g': Global, p: Packet, targets: seq<nat>, out: set<Packet>)
    requires Exchange(g, g', p, out) && (forall q :: q in out ==> q.msg.Commit?) && forall a :: a in targets ==> Reaches(out, a)
    ensures forall a :: a in targets ==> CommitSent(g', p.msg.id, a)
  {
    forall a | a in targets ensures CommitSent(g', p.msg.id, a) {
      assert Reaches(out, a);
      var q :| q in out && q.dst == a;
      assert IsCommit(q, p.msg.id);
    }
  }

  lemma AcceptReplyProgress(g: Global, g': Global, p: Packet, now: int, targets: seq<nat>)
    requires Inv(g) && AllProgress(g) && DeliverStep(g, g', p, now, targets) && p.msg.AcceptReply? && Keeps(g, g')
    requires EnoughTargets(g, g', p.msg.id, targets)
    ensures AllProgress(g')
  {
    hide Inv, Basic, DeliverStep, AllProgress, Keeps, RoundOk, Progress, Touch, Exchange, Started, TargetsOk, Reaches;
    var out := AcceptReplyArrives(g, g', p, now, targets);
    OtherSpaces(g, g', p.dst, p.msg.id);
    ProgressAt(g, p.msg.id);
    AcceptReplyMoves(g, g', p, targets, out);
    ExchangeTraffic(g, g', p, out);
    TouchProgress(g, g', p.dst, p.msg.id);
  }

  // ---------------------------------------------------------------- runs

  lemma ProgressExecute(g: Global, g': Global, s: nat, space: Space, ex: Execution)
    requires Inv(g) && AllProgress(g) && ExecuteStep(g, g', s, space, ex) && Keeps(g, g')
    ensures AllProgress(g')
  {
    hide Rounds, Votes, Executions, Leaders, Entries, Packets, Local, Progress, ExecutionOk, Keeps;
    ExecuteKeeps(g, g', s, space, ex);
    forall id | Started(g', id) ensures Progress(g', id) {
      ProgressOther(g, g', id);
    }
  }

  lemma EnoughFromFull(g: Global, g': Global, p: Packet, now: int, targets: seq<nat>)
    requires Inv(g) && DeliverStep(g, g', p, now, targets) && Enabled(g, Delivering(p, now, targets))
    requires Full(g, Delivering(p, now, targets)) && (p.msg.PreAcceptReply? || p.msg.AcceptReply?)
    ensures EnoughTargets(g, g', p.msg.id, targets)
  {
    hide Rounds, Votes, Executions, Leaders, Entries, Local, HandlePreAcceptReply, HandleAcceptReply;
    LeaderAt(g, p);
  }

  lemma StepProgress(g: Global, g': Global, step: Step)
    requires Inv(g) && AllProgress(g) && NextStep(g, g', step) && Enabled(g, step) && Full(g, step)
    ensures AllProgress(g')
  {
    hide Inv, AllProgress, DeliverStep, ProposeStep, ExecuteStep, Keeps, EnoughTargets;
    StepKeeps(g, g', step);
    match step {
      case Proposing(s, c, waits, now, targets) =>
        ProgressPropose(g, g', s, c, waits, now, targets);
      case Delivering(p, now, targets) =>
        match p.msg {
          case PreAccept(_, _, _, _, _, _) =>
            PreAcceptProgress(g, g', p, now, targets);
          case PreAcceptReply(_, _, _, _, _, _, _) =>
            EnoughFromFull(g, g', p, now, targets);
            ReplyProgress(g, g', p, now, targets);
          case Accept(_, _, _, _, _) =>
            AcceptProgress(g, g', p, now, targets);
          case AcceptReply(_, _) =>
            EnoughFromFull(g, g', p, now, targets);
            AcceptReplyProgress(g, g', p, now, targets);
          case Commit(_, _, _, _, _, _) =>
            CommitProgress(g, g', p, now, targets);
        }
      case Executing(s, space, ex) =>
        ProgressExecute(g, g', s, space, ex);
    }
  }

  lemma {:induction false} RunProgress(run: seq<Global>, steps: seq<Step>, i: nat)
    requires FullRun(run, steps) && i < |run|
    ensures AllProgress(run[i])
  {
    hide Inv, NextStep, Progress, Full, Enabled;
    if i == 0 {
      NothingAtFirst(run[0]);
    } else {
      RunProgress(run, steps, i - 1);
      RunInv(run, steps, i - 1);
      StepProgress(run[i - 1], run[i], steps[i - 1]);
    }
  }

  lemma NothingAtFirst(g: Global)
    requires Init(g)
    ensures AllProgress(g)
  {
  }

  /** Nothing in flight: every proposed instance is committed at every replica. */
  lemma QuietRunsCommitEverything(run: seq<Global>, steps: seq<Step>, id: Id, s: nat)
    requires FullRun(run, steps) && run[|run| - 1].net == {}
    requires Started(run[|run| - 1], id) && s < run[|run| - 1].n
    ensures CommittedAt(run[|run| - 1], s, id)
  {
    hide Inv, NextStep, Progress, Full, Enabled, Started, CommittedAt;
    RunProgress(run, steps, |run| - 1);
    RunInv(run, steps, |run| - 1);
    ProgressAt(run[|run| - 1], id);
    QuietIsCommitted(run[|run| - 1], id);
  }
}
