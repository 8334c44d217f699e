/** Which path an EPaxos leader takes, in terms of the replies that reached it: it moves on at the last reply of
    a fast quorum, commits at once exactly if the replies agree, and otherwise after a majority of AcceptReplies. */
module EpaxosPaths {
  import opened State
  import opened Sequences
  import opened Sets
  import opened Traces
  import opened DepGraph
  import opened Options
  import opened EpaxosTypes
  import opened EpaxosSpec
  import opened EpaxosProtocol
  import opened EpaxosBasic
  import opened EpaxosRounds
  import opened EpaxosVotes
  import opened EpaxosExecution
  import opened EpaxosSafety
  import opened EpaxosTheorems
  import opened EpaxosQuiet
  import opened SccSearch

  // ---------------------------------------------------------------- what the leader has heard

  /** The reply p reached the leader of id. */
  ghost predicate Counts(g: Global, id: Id, p: Packet) {
    p in g.sent && p !in g.net && IsReply(p, id)
  }

  /** Any two replies that reached the leader carry the same Seq and the same Deps. */
  ghost predicate Unanimous(g: Global, id: Id) {
    forall p, q :: Counts(g, id, p) && Counts(g, id, q) ==> p.msg.seqno == q.msg.seqno && p.msg.deps == q.msg.deps
  }

  function CommittedTo(rs: RState, q: nat): int {
    if q < |rs.committedUpTo| then rs.committedUpTo[q] else -1
  }

  /** A reply says that column q is committed up to d. */
  ghost predicate ReplyCovers(g: Global, id: Id, q: nat, d: int) {
    exists p :: Counts(g, id, p) && q < |p.msg.committedDeps| && p.msg.committedDeps[q] >= d
  }

  /** The leader, in state rs, or a reply knows every column committed up to the leader's own first dependency.
      Only larger systems ask for that. */
  ghost predicate Covered(g: Global, id: Id, rs: RState, original: seq<int>) {
    g.n > 7 ==> forall q: nat :: q < |original| ==>
      original[q] < 0 || ReplyCovers(g, id, q, original[q]) || CommittedTo(rs, q) >= original[q]
  }

  /** No reply knows some column committed up to the leader's own first dependency. */
  ghost predicate Uncovered(g: Global, id: Id, original: seq<int>) {
    g.n > 7 && exists q: nat :: q < |original| && original[q] >= 0 && !ReplyCovers(g, id, q, original[q])
  }

  ghost function LeaderState(g: Global, id: Id): RState
    requires Started(g, id)
  {
    g.nodes[id.replica].rs
  }

  // ---------------------------------------------------------------- the invariant

  /** Some reply has this Seq, and none a larger one; column by column the same for Deps. */
  ghost predicate MergedExactly(g: Global, id: Id, seqno: int, deps: seq<int>) {
    && (exists p :: Counts(g, id, p) && p.msg.seqno == seqno)
    && (forall p :: Counts(g, id, p) ==> p.msg.seqno <= seqno && GeDeps(deps, p.msg.deps))
    && forall q: nat :: q < |deps| ==> AttainedAt(g, id, q, deps[q])
  }

  ghost predicate AttainedAt(g: Global, id: Id, q: nat, d: int) {
    exists p :: Counts(g, id, p) && q < |p.msg.deps| && p.msg.deps[q] == d
  }

  /** What the leader knows of committed columns is what the replies and it itself know. */
  ghost predicate CommittedExactly(g: Global, id: Id, rs: RState, committed: seq<int>) {
    && (forall q: nat :: q < |committed| ==>
          committed[q] >= -1 && (committed[q] <= CommittedTo(rs, q) || committed[q] == -1 || ReplyCovers(g, id, q, committed[q])))
    && forall p, q: nat :: Counts(g, id, p) && q < |committed| && q < |p.msg.committedDeps| ==> p.msg.committedDeps[q] <= committed[q]
  }

  ghost predicate Heard(g: Global, id: Id, rs: RState, lb: LeaderBookkeeping) {
    && (lb.allEqual <==> Unanimous(g, id))
    && (lb.preAcceptOKs == 0 ==> lb.ballot == -1 && forall p :: !Counts(g, id, p))
    && (lb.preAcceptOKs > 0 ==> MergedExactly(g, id, lb.seqno, lb.deps))
    && (g.n > 7 ==> CommittedExactly(g, id, rs, lb.committedDeps))
  }

  ghost predicate Fast(lb: LeaderBookkeeping) {
    lb.status == COMMITTED && lb.acceptOKs == 0
  }

  ghost predicate Slow(lb: LeaderBookkeeping) {
    lb.status == ACCEPTED || (lb.status == COMMITTED && lb.acceptOKs > 0)
  }

  ghost predicate NoAccept(g: Global, id: Id) {
    forall p :: p in g.sent ==> !IsAccept(p, id)
  }

  ghost predicate Path(g: Global, id: Id)
    requires Started(g, id)
  {
    var lb, rs := Lb(g, id), LeaderState(g, id);
    && Heard(g, id, rs, lb)
    && (Open(lb) ==> lb.acceptOKs == 0 && rs.space[id].deps == lb.originalDeps)
    && (Fixed(lb) ==> lb.preAcceptOKs > 0)
    && (Fast(lb) ==> Unanimous(g, id) && Covered(g, id, rs, lb.originalDeps) && NoAccept(g, id))
    && (Slow(lb) ==> !Unanimous(g, id) || Uncovered(g, id, lb.originalDeps))
    && (lb.status == ACCEPTED ==> lb.acceptOKs == |AcceptCounted(g, id)| < g.f)
    && (lb.status == COMMITTED && lb.acceptOKs > 0 ==> lb.acceptOKs == g.f <= |AcceptCounted(g, id)|)
  }

  ghost predicate Paths(g: Global) {
    forall id :: Started(g, id) ==> Path(g, id)
  }

  // ---------------------------------------------------------------- steps about other instances

  ghost predicate ColumnsGrow(a: RState, b: RState) {
    forall q: nat :: CommittedTo(a, q) <= CommittedTo(b, q)
  }

  lemma SameCounts(g: Global, g': Global, id: Id)
    requires SameTraffic(g, g', id)
    ensures forall p :: Counts(g', id, p) <==> Counts(g, id, p)
  {
  }

  lemma PathOther(g: Global, g': Global, id: Id)
    requires SameTraffic(g, g', id) && g'.f == g.f && g'.n == g.n
    requires Started(g, id) && Started(g', id) && Path(g, id) && Lb(g', id) == Lb(g, id)
    requires LeaderState(g', id).space[id].deps == LeaderState(g, id).space[id].deps
    requires ColumnsGrow(LeaderState(g, id), LeaderState(g', id))
    ensures Path(g', id)
  {
    hide CommittedTo;
    SameCounts(g, g', id);
    assert AcceptCounted(g', id) == AcceptCounted(g, id);
    hide Counts, SameTraffic, AcceptCounted, ColumnsGrow;
    assert Unanimous(g', id) <==> Unanimous(g, id);
    assert forall q: nat, d :: ReplyCovers(g', id, q, d) <==> ReplyCovers(g, id, q, d);
    assert forall q: nat, d :: AttainedAt(g', id, q, d) <==> AttainedAt(g, id, q, d);
    hide ReplyCovers, AttainedAt, Unanimous;
    StillHeard(g, g', id);
  }

  /** Heard and Covered do not look at the status and the AcceptReplies. */
  lemma StillHeard(g: Global, g': Global, id: Id)
    requires g'.f == g.f && g'.n == g.n && Started(g, id) && Started(g', id)
    requires Lb(g', id) == Lb(g, id).(acceptOKs := Lb(g', id).acceptOKs, status := Lb(g', id).status)
    requires Heard(g, id, LeaderState(g, id), Lb(g, id)) && ColumnsGrow(LeaderState(g, id), LeaderState(g', id))
    requires forall p :: Counts(g', id, p) <==> Counts(g, id, p)
    requires Unanimous(g', id) <==> Unanimous(g, id)
    requires forall q: nat, d :: ReplyCovers(g', id, q, d) <==> ReplyCovers(g, id, q, d)
    requires forall q: nat, d :: AttainedAt(g', id, q, d) <==> AttainedAt(g, id, q, d)
    ensures Heard(g', id, LeaderState(g', id), Lb(g', id))
    ensures Covered(g, id, LeaderState(g, id), Lb(g, id).originalDeps) ==>
              Covered(g', id, LeaderState(g', id), Lb(g', id).originalDeps)
    ensures Uncovered(g', id, Lb(g', id).originalDeps) <==> Uncovered(g, id, Lb(g, id).originalDeps)
  {
    hide Counts, ReplyCovers, AttainedAt, Unanimous, CommittedTo, GeDeps;
  }

  /** What a step about instance id leaves of another one. */
  lemma TouchPaths(g: Global, g': Global, s: nat, id: Id)
    requires Basic(g) && Basic(g') && Paths(g) && Touch(g, g', s, id) && ColumnsGrow(g.nodes[s].rs, g'.nodes[s].rs)
    requires forall x :: x != id ==> SameTraffic(g, g', x)
    requires Started(g', id) ==> Path(g', id)
    ensures Paths(g')
  {
    hide Basic, Path, SameTraffic;
    forall x | Started(g', x) ensures Path(g', x) {
      if x != id {
        OtherStays(g, g', s, id, x);
        OtherSpaces(g, g', s, id);
        LeaderOfOther(g, g', s, id, x);
        PathOther(g, g', x);
      }
    }
  }

  lemma LeaderOfOther(g: Global, g': Global, s: nat, id: Id, x: Id)
    requires Touch(g, g', s, id) && x != id && Started(g, x) && Started(g', x)
    requires ColumnsGrow(g.nodes[s].rs, g'.nodes[s].rs)
    ensures LeaderState(g', x).space[x].deps == LeaderState(g, x).space[x].deps
    ensures ColumnsGrow(LeaderState(g, x), LeaderState(g', x))
  {
    hide CommittedTo;
  }

  // ---------------------------------------------------------------- propose

  lemma ProposeColumns(st: RState, c: Command, waits: bool, now: int, targets: seq<nat>)
    requires Local(st)
    ensures var o, id := Propose(st, [c], waits, now, targets), NextId(st);
      ColumnsGrow(st, o.st) && id in o.st.space && o.st.space[id].lb.Some?
      && var lb := o.st.space[id].lb.value;
         lb.ballot == -1 && lb.allEqual && lb.preAcceptOKs == 0 && lb.acceptOKs == 0 && lb.status == PREACCEPTED
         && o.st.space[id].deps == lb.originalDeps && lb.committedDeps == NilDeps(st.n)
  {
    hide ConflictsKnown, UpdateAttributes;
  }

  lemma NewPath(g: Global, id: Id)
    requires Started(g, id) && (forall p :: !Counts(g, id, p))
    requires var lb := Lb(g, id);
      lb.ballot == -1 && lb.allEqual && lb.preAcceptOKs == 0 && lb.acceptOKs == 0 && lb.status == PREACCEPTED
      && LeaderState(g, id).space[id].deps == lb.originalDeps && lb.committedDeps == NilDeps(g.n)
    ensures Path(g, id)
  {
  }

  lemma PathsPropose(g: Global, g': Global, s: nat, c: Command, waits: bool, now: int, targets: seq<nat>)
    requires Inv(g) && Paths(g) && ProposeStep(g, g', s, c, waits, now, targets)
    ensures Paths(g')
  {
    ProposeFacts(g, g', s, c, waits, now, targets);
    var rs, id := g.nodes[s].rs, NextId(g.nodes[s].rs);
    var m := PreAccept(id, s, s, [c], -1, g'.nodes[s].rs.space[id].lb.value.originalDeps);
    ProposeColumns(rs, c, waits, now, targets);
    Unknown(g, id);
    hide *;
    BasicPropose(g, g', s, c, waits, now, targets);
    OtherSpaces(g, g', s, id);
    NewLeaderStarted(g', s, id, c);
    AskedAre(g, g', rs, FastQuorumSize(g.f) - 1, targets, m);
    NothingCounted(g', id);
    NewLeaderIs(g', s, id);
    NewPath(g', id);
    TouchPaths(g, g', s, id);
  }

  lemma NothingCounted(g: Global, id: Id)
    requires forall p :: p in g.sent && p.msg.id == id ==> p.msg.PreAccept? && p in g.net
    ensures forall p :: !Counts(g, id, p)
  {
  }

  lemma NewLeaderIs(g: Global, s: nat, id: Id)
    requires Started(g, id) && id.replica == s
    ensures s < |g.nodes| && Lb(g, id) == g.nodes[s].rs.space[id].lb.value && LeaderState(g, id) == g.nodes[s].rs
  {
  }

  // ---------------------------------------------------------------- messages at a peer

  lemma ExchangeCounts(g: Global, g': Global, p: Packet, out: set<Packet>)
    requires Exchange(g, g', p, out)
    ensures forall q :: Counts(g', p.msg.id, q) <==> Counts(g, p.msg.id, q) || (q == p && IsReply(p, p.msg.id))
  {
  }

  lemma PathPeer(g: Global, g': Global, p: Packet, out: set<Packet>)
    requires Exchange(g, g', p, out) && Started(g, p.msg.id) && Started(g', p.msg.id) && Path(g, p.msg.id)
    requires Lb(g', p.msg.id) == Lb(g, p.msg.id) && LeaderState(g', p.msg.id) == LeaderState(g, p.msg.id)
    requires g'.f == g.f && g'.n == g.n && !p.msg.PreAcceptReply? && !p.msg.AcceptReply?
    requires forall q :: q in out ==> !q.msg.Accept?
    ensures Path(g', p.msg.id)
  {
    var id := p.msg.id;
    SameKnowledge(g, g', p, out);
    QuietAccepts(g, g', p, out);
    NothingGrows(LeaderState(g, id));
    StillHeard(g, g', id);
    hide Counts, Exchange, AcceptCounted, CommittedTo, NoAccept, Heard, Covered, Uncovered, Unanimous, ReplyCovers, AttainedAt;
  }

  lemma NothingGrows(rs: RState)
    ensures ColumnsGrow(rs, rs)
  {
  }

  lemma LeaderStays(g: Global, g': Global, s: nat, id: Id)
    requires Touch(g, g', s, id) && id.replica != s && Started(g, id)
    ensures Started(g', id) && LeaderState(g', id) == LeaderState(g, id)
  {
  }

  lemma PathAt(g: Global, id: Id)
    requires Paths(g) && Started(g, id)
    ensures Path(g, id)
  {
  }

  lemma PeerKeepsPaths(g: Global, g': Global, p: Packet, out: set<Packet>)
    requires Basic(g) && Basic(g') && Paths(g) && Touch(g, g', p.dst, p.msg.id) && Exchange(g, g', p, out)
    requires Started(g, p.msg.id) && p.msg.id.replica != p.dst && ColumnsGrow(g.nodes[p.dst].rs, g'.nodes[p.dst].rs)
    requires !p.msg.PreAcceptReply? && !p.msg.AcceptReply? && forall q :: q in out ==> !q.msg.Accept?
    ensures Paths(g')
  {
    hide *;
    LeaderUntouched(g, g', p.dst, p.msg.id);
    LeaderStays(g, g', p.dst, p.msg.id);
    PathAt(g, p.msg.id);
    PathPeer(g, g', p, out);
    ExchangeTraffic(g, g', p, out);
    TouchPaths(g, g', p.dst, p.msg.id);
  }

  /** No handler forgets what is committed. */
  lemma HandlerColumns(st: RState, m: Msg, now: int, targets: seq<nat>)
    requires CanHandle(st, m)
    ensures ColumnsGrow(st, Handle(st, m, now, targets).st)
  {
    hide ConflictsKnown, UpdateAttributes, UpdateConflicts, Tally;
    match m
    case PreAccept(_, _, _, _, _, _) => PreAcceptColumns(st, m, now);
    case PreAcceptReply(_, _, _, _, _, _, _) => ReplyColumns(st, m, targets);
    case Accept(_, _, _, _, _) =>
    case AcceptReply(_, _) =>
    case Commit(_, _, _, _, _, _) => CommitColumns(st, m, now);
  }

  lemma PreAcceptColumns(st: RState, m: Msg, now: int)
    requires CanHandle(st, m) && m.PreAccept?
    ensures HandlePreAccept(st, m, now).st.committedUpTo == st.committedUpTo
  {
    hide ConflictsKnown, UpdateAttributes;
  }

  lemma CommitColumns(st: RState, m: Msg, now: int)
    requires CanHandle(st, m) && m.Commit?
    ensures ColumnsGrow(st, HandleCommit(st, m, now).st)
  {
    hide ConflictsKnown;
  }

  lemma ReplyColumns(st: RState, m: Msg, targets: seq<nat>)
    requires CanHandle(st, m) && m.PreAcceptReply?
    ensures ColumnsGrow(st, HandlePreAcceptReply(st, m, targets).st)
  {
    hide ConflictsKnown, Tally;
  }

  lemma DeliveryColumns(g: Global, g': Global, p: Packet, now: int, targets: seq<nat>)
    requires DeliverStep(g, g', p, now, targets)
    ensures p.dst < |g.nodes| == |g'.nodes| && ColumnsGrow(g.nodes[p.dst].rs, g'.nodes[p.dst].rs)
  {
    hide CanHandle, Handle, ColumnsGrow;
    HandlerColumns(g.nodes[p.dst].rs, p.msg, now, targets);
  }

  lemma PathsPeer(g: Global, g': Global, p: Packet, now: int, targets: seq<nat>)
    requires Inv(g) && Paths(g) && DeliverStep(g, g', p, now, targets) && (p.msg.PreAccept? || p.msg.Accept? || p.msg.Commit?)
    ensures Paths(g')
  {
    hide *;
    InvParts(g);
    DeliveryColumns(g, g', p, now, targets);
    if p.msg.PreAccept? {
      PreAcceptStep(g, g', p, now, targets);
      RoundsPreAccept(g, g', p, now, targets);
      var q := PreAcceptAnswer(g, g', p, now, targets);
      PeerKeepsPaths(g, g', p, {q});
    } else if p.msg.Accept? {
      RoundsAccept(g, g', p, now, targets);
      var q := AcceptAnswer(g, g', p, now, targets);
      PeerKeepsPaths(g, g', p, {q});
    } else {
      RoundsCommit(g, g', p, now, targets);
      CommitArrives(g, g', p, now, targets);
      PeerKeepsPaths(g, g', p, {});
    }
  }

  // ---------------------------------------------------------------- AcceptReply at the leader

  lemma AcceptCounts(st: RState, m: Msg, targets: seq<nat>)
    requires CanHandle(st, m) && m.AcceptReply? && m.id.replica == st.id && m.ballot == m.id.replica
    requires LeaderOk(st.n, m.id, st.space[m.id]) && Fixed(st.space[m.id].lb.value)
    ensures var o := HandleAcceptReply(st, m, targets);
      m.id in o.st.space && o.st.space[m.id].lb.Some?
      && var lb, lb' := st.space[m.id].lb.value, o.st.space[m.id].lb.value;
         if lb.status == COMMITTED then lb' == lb
         else lb' == lb.(acceptOKs := lb.acceptOKs + 1, status := if lb.acceptOKs + 2 > st.n / 2 then COMMITTED else ACCEPTED)
  {
    hide ConflictsKnown;
  }

  lemma AcceptReplyLb(g: Global, g': Global, p: Packet, now: int, targets: seq<nat>)
    requires Inv(g) && DeliverStep(g, g', p, now, targets) && p.msg.AcceptReply?
    ensures Started(g, p.msg.id) && Started(g', p.msg.id) && g.n == 2 * g.f + 1
    ensures var lb, lb' := Lb(g, p.msg.id), Lb(g', p.msg.id);
      if lb.status == COMMITTED then lb' == lb
      else lb' == lb.(acceptOKs := lb.acceptOKs + 1, status := if lb.acceptOKs + 2 > g.n / 2 then COMMITTED else ACCEPTED)
  {
    hide Rounds, Votes, Executions, Leaders, Entries, Local, RoundOk, HandleAcceptReply, LeaderOk, Touch, Evolves;
    var rs, id := g.nodes[p.dst].rs, p.msg.id;
    LeaderAt(g, p);
    AcceptReplyIsLate(g, p);
    BasicAcceptReply(g, g', p, now, targets);
    AcceptCounts(rs, p.msg, targets);
    NodeInRange(g, p.dst);
    assert Sp(g', p.dst) == HandleAcceptReply(rs, p.msg, targets).st.space;
  }

  lemma PathAcceptReply(g: Global, g': Global, p: Packet, out: set<Packet>)
    requires Exchange(g, g', p, out) && Started(g, p.msg.id) && Started(g', p.msg.id) && Path(g, p.msg.id)
    requires Fixed(Lb(g, p.msg.id)) && p.msg.AcceptReply? && g'.f == g.f && g'.n == g.n == 2 * g.f + 1 && g.f >= 1
    requires forall q :: q in out ==> q.msg.Commit?
    requires |AcceptCounted(g', p.msg.id)| == |AcceptCounted(g, p.msg.id)| + 1
    requires ColumnsGrow(LeaderState(g, p.msg.id), LeaderState(g', p.msg.id))
    requires var lb, lb' := Lb(g, p.msg.id), Lb(g', p.msg.id);
      if lb.status == COMMITTED then lb' == lb
      else lb' == lb.(acceptOKs := lb.acceptOKs + 1, status := if lb.acceptOKs + 2 > g.n / 2 then COMMITTED else ACCEPTED)
    ensures Path(g', p.msg.id)
  {
    var id := p.msg.id;
    SameKnowledge(g, g', p, out);
    StillHeard(g, g', id);
    hide Counts, Exchange, AcceptCounted, CommittedTo, NoAccept, Heard, Covered, Uncovered, Unanimous, ReplyCovers, AttainedAt,
      ColumnsGrow, IsReply;
  }

  /** A message that is no reply leaves what the leader has heard. */
  lemma SameKnowledge(g: Global, g': Global, p: Packet, out: set<Packet>)
    requires Exchange(g, g', p, out) && !p.msg.PreAcceptReply? && forall q :: q in out ==> !q.msg.Accept?
    ensures forall q :: Counts(g', p.msg.id, q) <==> Counts(g, p.msg.id, q)
    ensures NoAccept(g, p.msg.id) ==> NoAccept(g', p.msg.id)
    ensures Unanimous(g', p.msg.id) <==> Unanimous(g, p.msg.id)
    ensures forall q: nat, d :: ReplyCovers(g', p.msg.id, q, d) <==> ReplyCovers(g, p.msg.id, q, d)
    ensures forall q: nat, d :: AttainedAt(g', p.msg.id, q, d) <==> AttainedAt(g, p.msg.id, q, d)
  {
    ExchangeCounts(g, g', p, out);
    assert NoAccept(g, p.msg.id) ==> NoAccept(g', p.msg.id);
    hide Counts, Exchange, NoAccept;
  }

  lemma LeaderColumns(g: Global, g': Global, p: Packet)
    requires p.dst == p.msg.id.replica && Started(g, p.msg.id) && Started(g', p.msg.id)
    requires p.dst < |g.nodes| == |g'.nodes| && ColumnsGrow(g.nodes[p.dst].rs, g'.nodes[p.dst].rs)
    ensures ColumnsGrow(LeaderState(g, p.msg.id), LeaderState(g', p.msg.id))
  {
  }

  lemma PathsAcceptReply(g: Global, g': Global, p: Packet, now: int, targets: seq<nat>)
    requires Inv(g) && Paths(g) && DeliverStep(g, g', p, now, targets) && p.msg.AcceptReply?
    ensures Paths(g')
  {
    hide *;
    InvParts(g);
    DeliveryColumns(g, g', p, now, targets);
    AcceptReplyLb(g, g', p, now, targets);
    var out := AcceptReplyArrives(g, g', p, now, targets);
    OtherSpaces(g, g', p.dst, p.msg.id);
    PositiveF(g);
    OneAcceptReplyEach(g, p.msg.id);
    OneMoreAccept(g, g', p, out);
    LeaderColumns(g, g', p);
    PathAt(g, p.msg.id);
    PathAcceptReply(g, g', p, out);
    ExchangeTraffic(g, g', p, out);
    TouchPaths(g, g', p.dst, p.msg.id);
  }

  lemma PositiveF(g: Global)
    requires Basic(g)
    ensures g.f >= 1 && g.n == 2 * g.f + 1
  {
    hide Leaders, Entries, Packets, Local;
  }

  // ---------------------------------------------------------------- PreAcceptReply at the leader

  /** What one more reply does to the bookkeeping. */
  lemma TallySays(st: RState, inst: Instance, lb: LeaderBookkeeping, m: Msg)
    requires m.PreAcceptReply? && |lb.deps| == |m.deps| == st.n == |st.committedUpTo| && Open(lb)
    requires |lb.committedDeps| == |m.committedDeps| == |inst.deps| == st.n
    requires m.status == PREACCEPTED || m.status == PREACCEPTED_EQ
    ensures var (lb1, allCommitted) := Tally(st, inst, lb, m);
      var seq0, deps0 := if m.vballot > lb.ballot then m.seqno else lb.seqno, if m.vballot > lb.ballot then m.deps else lb.deps;
      && Open(lb1) && lb1.acceptOKs == lb.acceptOKs && lb1.lastTriedBallot == lb.lastTriedBallot
      && lb1.originalDeps == lb.originalDeps && lb1.preAcceptOKs == lb.preAcceptOKs + 1 && lb1.ballot == Max(lb.ballot, m.vballot)
      && lb1.seqno == Max(seq0, m.seqno) && lb1.deps == MergeDeps(st.id, deps0, m.deps)
      && (lb1.allEqual <==> lb.allEqual && (st.n <= 3 || (seq0 == m.seqno && SameExcept(st.id, deps0, m.deps))))
      && (st.n > 7 ==> lb1.committedDeps == MergeCommitted(lb.committedDeps, m.committedDeps, st.committedUpTo))
      && (allCommitted <==> (st.n > 7 ==> forall q :: 0 <= q < st.n ==> lb1.committedDeps[q] >= inst.deps[q]))
  {
    hide MergeDeps, SameExcept, MergeCommitted;
  }

  /** The reply of an open round: the new bookkeeping, and the path. */
  ghost predicate ReplySays(st: RState, inst: Instance, m: Msg, inst': Instance)
    requires inst.lb.Some? && inst'.lb.Some? && m.PreAcceptReply?
    requires |inst.lb.value.deps| == |m.deps| == st.n == |st.committedUpTo|
    requires |inst.lb.value.committedDeps| == |m.committedDeps| == |inst.deps| == st.n
  {
    var lb, lb' := inst.lb.value, inst'.lb.value;
    var (lb1, allCommitted) := Tally(st, inst, lb, m);
    && lb' == lb1.(status := lb'.status)
    && (Open(lb') ==> inst'.deps == inst.deps && lb'.status == lb1.status)
    && (Open(lb') <==> lb1.preAcceptOKs < FastQuorumSize(st.f) - 1)
    && (!Open(lb') ==> lb'.status == if lb1.allEqual && allCommitted then COMMITTED else ACCEPTED)
  }

  lemma DecideSays(st: RState, id: Id, lb: LeaderBookkeeping, allCommitted: bool, targets: seq<nat>)
    requires id in st.space && id.replica < |st.committedUpTo| && st.committedUpTo[id.replica] >= -1
    requires Open(lb) && lb.lastTriedBallot == id.replica
    ensures var o := Decide(st, id, lb, allCommitted, targets);
      id in o.st.space && o.st.space[id].lb.Some?
      && var lb' := o.st.space[id].lb.value;
         && lb' == lb.(status := lb'.status)
         && (Open(lb') ==> o.st.space[id].deps == st.space[id].deps && lb'.status == lb.status)
         && (Open(lb') <==> lb.preAcceptOKs < FastQuorumSize(st.f) - 1)
         && (!Open(lb') ==> lb'.status == if lb.allEqual && allCommitted then COMMITTED else ACCEPTED)
  {
  }

  lemma HandleSays(st: RState, m: Msg, targets: seq<nat>)
    requires CanHandle(st, m) && m.PreAcceptReply? && LeaderOk(st.n, m.id, st.space[m.id]) && Open(st.space[m.id].lb.value)
    requires m.ballot == m.id.replica && (m.status == PREACCEPTED || m.status == PREACCEPTED_EQ)
    ensures var o := HandlePreAcceptReply(st, m, targets);
      m.id in o.st.space && o.st.space[m.id].lb.Some? && ReplySays(st, st.space[m.id], m, o.st.space[m.id])
  {
    hide ConflictsKnown, Tally, Decide;
    var inst, lb := st.space[m.id], st.space[m.id].lb.value;
    var st1 := st.(maxRecvBallot := Max(st.maxRecvBallot, m.ballot));
    SameTally(st, st1, inst, lb, m);
    TallySays(st, inst, lb, m);
    var (lb1, allCommitted) := Tally(st, inst, lb, m);
    DecideSays(st1, m.id, lb1, allCommitted, targets);
  }

  lemma SameTally(st: RState, st1: RState, inst: Instance, lb: LeaderBookkeeping, m: Msg)
    requires st1 == st.(maxRecvBallot := st1.maxRecvBallot)
    requires m.PreAcceptReply? && |lb.deps| == |m.deps| == st.n == |st.committedUpTo|
    requires |lb.committedDeps| == |m.committedDeps| == |inst.deps| == st.n
    ensures Tally(st1, inst, lb, m) == Tally(st, inst, lb, m)
  {
    hide MergeDeps, SameExcept, MergeCommitted;
  }

  /** What is known when a reply arrives. */
  lemma ReplyFacts(g: Global, g': Global, p: Packet, now: int, targets: seq<nat>)
    requires Inv(g) && DeliverStep(g, g', p, now, targets) && p.msg.PreAcceptReply?
    ensures Started(g, p.msg.id) && Started(g', p.msg.id) && Open(Lb(g, p.msg.id)) && p.dst == p.msg.id.replica
    ensures var st, inst, lb := LeaderState(g, p.msg.id), LeaderState(g, p.msg.id).space[p.msg.id], Lb(g, p.msg.id);
      && |lb.deps| == |p.msg.deps| == st.n == |st.committedUpTo| == g.n
      && |lb.committedDeps| == |p.msg.committedDeps| == |inst.deps| == st.n && st.f == g.f && st.id == p.dst
      && p.msg.vballot == p.msg.id.replica && (lb.preAcceptOKs > 0 ==> lb.ballot == p.msg.id.replica)
      && (p.msg.status == PREACCEPTED || p.msg.status == PREACCEPTED_EQ)
      && Grown(p.msg.id.replica, p.msg.deps, lb.originalDeps) && Grown(p.msg.id.replica, lb.deps, lb.originalDeps)
      && ReplySays(st, inst, p.msg, LeaderState(g', p.msg.id).space[p.msg.id])
    ensures forall q :: Counts(g, p.msg.id, q) ==>
              |q.msg.deps| == |q.msg.committedDeps| == g.n && Grown(p.msg.id.replica, q.msg.deps, Lb(g, p.msg.id).originalDeps)
  {
    hide Rounds, Votes, Executions, Leaders, Entries, RoundOk, HandlePreAcceptReply, Touch, Evolves, Tally, ConflictsKnown, ReplySays;
    var rs, id := g.nodes[p.dst].rs, p.msg.id;
    LeaderAt(g, p);
    ReplyFindsOpen(g, p);
    BasicReply(g, g', p, now, targets);
    HandleSays(rs, p.msg, targets);
    assert g'.nodes[p.dst].rs == HandlePreAcceptReply(rs, p.msg, targets).st;
    forall q | Counts(g, id, q)
      ensures |q.msg.deps| == g.n && |q.msg.committedDeps| == g.n && Grown(id.replica, q.msg.deps, Lb(g, id).originalDeps)
    {
      assert PacketOk(g, q);
    }
  }

  /** One more reply m, from a leader that knows seqno and deps merged so far. */
  ghost predicate OneMore(g: Global, g': Global, id: Id, p: Packet) {
    && IsReply(p, id) && |p.msg.deps| == g.n
    && forall q :: Counts(g', id, q) <==> Counts(g, id, q) || q == p
  }

  lemma FirstHeard(g: Global, g': Global, id: Id, p: Packet)
    requires OneMore(g, g', id, p) && forall q :: !Counts(g, id, q)
    ensures Unanimous(g', id) && MergedExactly(g', id, p.msg.seqno, p.msg.deps)
  {
    assert Counts(g', id, p);
    forall q: nat | q < |p.msg.deps| ensures AttainedAt(g', id, q, p.msg.deps[q]) {
    }
  }

  /** The replies so far are all equal to what is merged, if they are equal at all. */
  lemma MergedIsCommon(g: Global, id: Id, q0: Packet, seqno: int, deps: seq<int>)
    requires MergedExactly(g, id, seqno, deps) && Unanimous(g, id) && Counts(g, id, q0)
    ensures q0.msg.seqno == seqno && q0.msg.deps == deps
  {
    forall q: nat | q < |deps| ensures q0.msg.deps[q] == deps[q] {
      assert AttainedAt(g, id, q, deps[q]);
    }
  }

  lemma UnanimousMore(g: Global, g': Global, id: Id, p: Packet, seqno: int, deps: seq<int>)
    requires OneMore(g, g', id, p) && MergedExactly(g, id, seqno, deps)
    ensures Unanimous(g', id) <==> Unanimous(g, id) && seqno == p.msg.seqno && deps == p.msg.deps
  {
    hide AttainedAt, GeDeps;
    assert Counts(g', id, p);
    var q0 :| Counts(g, id, q0) && q0.msg.seqno == seqno;
    if Unanimous(g, id) {
      forall q | Counts(g, id, q) ensures q.msg.seqno == seqno && q.msg.deps == deps {
        MergedIsCommon(g, id, q, seqno, deps);
      }
      assert Counts(g', id, q0);
    }
  }

  lemma MergedMore(g: Global, g': Global, id: Id, p: Packet, seqno: int, deps: seq<int>, deps': seq<int>, own: nat)
    requires OneMore(g, g', id, p) && MergedExactly(g, id, seqno, deps) && |deps| == |p.msg.deps|
    requires deps' == MergeDeps(own, deps, p.msg.deps) && (own < |deps| ==> deps[own] == p.msg.deps[own])
    ensures MergedExactly(g', id, Max(seqno, p.msg.seqno), deps')
  {
    assert Counts(g', id, p);
    forall q: nat | q < |deps'| ensures AttainedAt(g', id, q, deps'[q]) {
      assert AttainedAt(g, id, q, deps[q]);
      var r :| Counts(g, id, r) && q < |r.msg.deps| && r.msg.deps[q] == deps[q];
      assert Counts(g', id, r);
    }
    var r :| Counts(g, id, r) && r.msg.seqno == seqno;
    assert Counts(g', id, r);
    assert exists r :: Counts(g', id, r) && r.msg.seqno == Max(seqno, p.msg.seqno);
  }

  lemma CommittedMore(g: Global, g': Global, id: Id, p: Packet, rs: RState, rs': RState, committed: seq<int>)
    requires OneMore(g, g', id, p) && CommittedExactly(g, id, rs, committed) && ColumnsGrow(rs, rs')
    requires |committed| == |p.msg.committedDeps| == |rs.committedUpTo|
    ensures CommittedExactly(g', id, rs', MergeCommitted(committed, p.msg.committedDeps, rs.committedUpTo))
  {
    var committed' := MergeCommitted(committed, p.msg.committedDeps, rs.committedUpTo);
    assert Counts(g', id, p);
    forall q: nat | q < |committed'|
      ensures committed'[q] >= -1
      ensures committed'[q] <= CommittedTo(rs', q) || committed'[q] == -1 || ReplyCovers(g', id, q, committed'[q])
    {
      assert CommittedTo(rs, q) == rs.committedUpTo[q];
      if committed'[q] == committed[q] && ReplyCovers(g, id, q, committed[q]) {
        var r :| Counts(g, id, r) && q < |r.msg.committedDeps| && r.msg.committedDeps[q] >= committed[q];
        assert Counts(g', id, r);
      }
    }
  }

  lemma CoveredIff(g': Global, id: Id, p: Packet, rs: RState, committed: seq<int>, original: seq<int>)
    requires p.msg.PreAcceptReply? && |committed| == |p.msg.committedDeps| == |rs.committedUpTo| == |original| && g'.n > 7
    requires CommittedExactly(g', id, rs, MergeCommitted(committed, p.msg.committedDeps, rs.committedUpTo))
    ensures var merged := MergeCommitted(committed, p.msg.committedDeps, rs.committedUpTo);
      && ((forall q :: 0 <= q < |original| ==> merged[q] >= original[q]) <==> Covered(g', id, rs, original))
      && (!(forall q :: 0 <= q < |original| ==> merged[q] >= original[q]) ==> Uncovered(g', id, original))
  {
    var merged := MergeCommitted(committed, p.msg.committedDeps, rs.committedUpTo);
    assert forall q: nat :: q < |original| ==> CommittedTo(rs, q) <= merged[q];
    forall q: nat | q < |original| && merged[q] >= original[q]
      ensures original[q] < 0 || ReplyCovers(g', id, q, original[q]) || CommittedTo(rs, q) >= original[q]
    {
      if ReplyCovers(g', id, q, merged[q]) {
        assert ReplyCovers(g', id, q, original[q]);
      }
    }
    forall q: nat | q < |original| && ReplyCovers(g', id, q, original[q]) ensures merged[q] >= original[q] {
    }
  }

  /** The leader's knowledge and flags after one more reply, and the decision that follows from them. */
  ghost predicate Decision(g': Global, id: Id, rs: RState, lb: LeaderBookkeeping, lb': LeaderBookkeeping) {
    && lb'.acceptOKs == lb.acceptOKs && lb'.originalDeps == lb.originalDeps && lb'.preAcceptOKs == lb.preAcceptOKs + 1
    && (Open(lb') <==> lb'.preAcceptOKs < FastQuorumSize(rs.f) - 1)
    && (!Open(lb') ==> lb'.status == if Unanimous(g', id) && Covered(g', id, rs, lb.originalDeps) then COMMITTED else ACCEPTED)
    && (lb'.status == ACCEPTED ==> !Unanimous(g', id) || Uncovered(g', id, lb.originalDeps))
  }

  lemma ReplyDecides(g: Global, g': Global, id: Id, p: Packet, rs: RState, rs': RState, inst: Instance, inst': Instance)
    requires OneMore(g, g', id, p) && g'.n == g.n == rs.n == |rs.committedUpTo| == 2 * rs.f + 1 && rs.f >= 1 && ColumnsGrow(rs, rs')
    requires inst.lb.Some? && inst'.lb.Some? && Open(inst.lb.value) && p.msg.vballot == id.replica == rs.id
    requires p.msg.status == PREACCEPTED || p.msg.status == PREACCEPTED_EQ
    requires |inst.lb.value.deps| == |p.msg.deps| == |inst.lb.value.committedDeps| == |p.msg.committedDeps| == |inst.deps| == rs.n
    requires inst.lb.value.preAcceptOKs > 0 ==> inst.lb.value.ballot == id.replica
    requires inst.lb.value.preAcceptOKs < FastQuorumSize(rs.f) - 1
    requires Grown(id.replica, p.msg.deps, inst.lb.value.originalDeps) && Grown(id.replica, inst.lb.value.deps, inst.lb.value.originalDeps)
    requires Heard(g, id, rs, inst.lb.value) && inst.deps == inst.lb.value.originalDeps
    requires ReplySays(rs, inst, p.msg, inst')
    ensures Heard(g', id, rs', inst'.lb.value) && Decision(g', id, rs, inst.lb.value, inst'.lb.value)
    ensures Open(inst'.lb.value) ==> inst'.deps == inst.deps
  {
    var m, lb := p.msg, inst.lb.value;
    TallySays(rs, inst, lb, m);
    var (lb1, allCommitted) := Tally(rs, inst, lb, m);
    hide Tally, Counts, OneMore, CommittedTo, ReplyCovers, MergeDeps, MergeCommitted, AttainedAt, MergedExactly, CommittedExactly,
      Unanimous, Covered, Uncovered, SameExcept, Grown, ColumnsGrow;
    if lb.preAcceptOKs == 0 {
      FirstHeard(g, g', id, p);
      MergeSelf(rs.id, m.deps);
      NoneIsUnanimous(g, id);
    } else {
      SameDeps(rs.id, lb.deps, m.deps, lb.originalDeps);
      MergedMore(g, g', id, p, lb.seqno, lb.deps, lb1.deps, rs.id);
      UnanimousMore(g, g', id, p, lb.seqno, lb.deps);
    }
    if g.n > 7 {
      NothingGrows(rs);
      CommittedMore(g, g', id, p, rs, rs, lb.committedDeps);
      CommittedMore(g, g', id, p, rs, rs', lb.committedDeps);
      CoveredIff(g', id, p, rs, lb.committedDeps, lb.originalDeps);
    } else {
      FewColumns(g', id, rs, lb.originalDeps);
    }
    assert lb1.allEqual <==> Unanimous(g', id);
  }

  lemma NoneIsUnanimous(g: Global, id: Id)
    requires forall p :: !Counts(g, id, p)
    ensures Unanimous(g, id)
  {
  }

  lemma FewColumns(g: Global, id: Id, rs: RState, original: seq<int>)
    requires g.n <= 7
    ensures Covered(g, id, rs, original) && !Uncovered(g, id, original)
  {
  }

  lemma MergeSelf(own: nat, deps: seq<int>)
    ensures MergeDeps(own, deps, deps) == deps && SameExcept(own, deps, deps)
  {
  }

  lemma SameDeps(own: nat, a: seq<int>, b: seq<int>, original: seq<int>)
    requires Grown(own, a, original) && Grown(own, b, original)
    ensures SameExcept(own, a, b) <==> a == b
    ensures own < |a| ==> a[own] == b[own]
  {
  }

  lemma PathReply(g: Global, g': Global, p: Packet, out: set<Packet>)
    requires Exchange(g, g', p, out) && Started(g, p.msg.id) && Started(g', p.msg.id) && p.msg.PreAcceptReply?
    requires Path(g, p.msg.id) && Open(Lb(g, p.msg.id)) && g'.f == g.f && g'.n == g.n && g.f >= 1
    requires Open(Lb(g', p.msg.id)) || Fixed(Lb(g', p.msg.id))
    requires Heard(g', p.msg.id, LeaderState(g', p.msg.id), Lb(g', p.msg.id)) && LeaderState(g, p.msg.id).f == g.f
    requires Decision(g', p.msg.id, LeaderState(g, p.msg.id), Lb(g, p.msg.id), Lb(g', p.msg.id))
    requires Open(Lb(g', p.msg.id)) ==> LeaderState(g', p.msg.id).space[p.msg.id].deps == LeaderState(g, p.msg.id).space[p.msg.id].deps
    requires ColumnsGrow(LeaderState(g, p.msg.id), LeaderState(g', p.msg.id))
    requires forall q :: q in g.sent && q.msg.id == p.msg.id ==> !q.msg.Accept? && !q.msg.AcceptReply?
    requires Sends(out, Lb(g', p.msg.id), [])
    ensures Path(g', p.msg.id)
  {
    var id := p.msg.id;
    NoAcceptsYet(g, g', p, out);
    hide Heard, Exchange, Counts, Unanimous, Uncovered, AcceptCounted, NoAccept, ReplyCovers, CommittedTo, Sends;
  }

  lemma NoAcceptsYet(g: Global, g': Global, p: Packet, out: set<Packet>)
    requires Exchange(g, g', p, out) && Started(g', p.msg.id) && p.msg.PreAcceptReply? && Sends(out, Lb(g', p.msg.id), [])
    requires forall q :: q in g.sent && q.msg.id == p.msg.id ==> !q.msg.Accept? && !q.msg.AcceptReply?
    ensures Lb(g', p.msg.id).status == COMMITTED ==> NoAccept(g', p.msg.id)
    ensures (forall q :: q in out ==> !q.msg.AcceptReply?) ==> |AcceptCounted(g', p.msg.id)| == 0
    ensures Open(Lb(g', p.msg.id)) || Fixed(Lb(g', p.msg.id)) ==> forall q :: q in out ==> !q.msg.AcceptReply?
  {
    if forall q :: q in out ==> !q.msg.AcceptReply? {
      assert AcceptCounted(g', p.msg.id) == {};
    }
  }

  /** The reply arrives at the leader: all that is known of the decision. */
  lemma ReplyStep(g: Global, g': Global, p: Packet, now: int, targets: seq<nat>)
    requires Inv(g) && Paths(g) && DeliverStep(g, g', p, now, targets) && p.msg.PreAcceptReply?
    ensures Started(g, p.msg.id) && Started(g', p.msg.id) && Open(Lb(g, p.msg.id)) && Path(g', p.msg.id)
    ensures Decision(g', p.msg.id, LeaderState(g, p.msg.id), Lb(g, p.msg.id), Lb(g', p.msg.id))
    ensures LeaderState(g, p.msg.id).f == g.f
  {
    hide *;
    var id := p.msg.id;
    InvParts(g);
    DeliveryColumns(g, g', p, now, targets);
    ReplyFacts(g, g', p, now, targets);
    var out := ReplyArrives(g, g', p, now, targets);
    OtherSpaces(g, g', p.dst, id);
    PositiveF(g);
    LeaderColumns(g, g', p);
    PathAt(g, id);
    NothingLate(g, id);
    OpenPath(g, id);
    ReplyIsOne(g, g', p, out);
    EntryOfLeader(g, id);
    EntryOfLeader(g', id);
    ReplyDecides(g, g', id, p, LeaderState(g, id), LeaderState(g', id), LeaderState(g, id).space[id], LeaderState(g', id).space[id]);
    FewerSends(out, Lb(g', id), targets);
    PathReply(g, g', p, out);
  }

  lemma FewerSends(out: set<Packet>, lb: LeaderBookkeeping, targets: seq<nat>)
    requires Sends(out, lb, targets)
    ensures Sends(out, lb, [])
  {
  }

  lemma EntryOfLeader(g: Global, id: Id)
    requires Started(g, id)
    ensures id in LeaderState(g, id).space && LeaderState(g, id).space[id].lb == Some(Lb(g, id))
  {
  }

  lemma OpenPath(g: Global, id: Id)
    requires Started(g, id) && Path(g, id) && RoundOk(g, id) && Open(Lb(g, id))
    ensures Heard(g, id, LeaderState(g, id), Lb(g, id)) && LeaderState(g, id).space[id].deps == Lb(g, id).originalDeps
    ensures Lb(g, id).preAcceptOKs < FastQuorumSize(g.f) - 1
  {
  }

  lemma ReplyIsOne(g: Global, g': Global, p: Packet, out: set<Packet>)
    requires Exchange(g, g', p, out) && p.msg.PreAcceptReply? && |p.msg.deps| == g.n
    ensures OneMore(g, g', p.msg.id, p)
  {
  }

  lemma PathsReply(g: Global, g': Global, p: Packet, now: int, targets: seq<nat>)
    requires Inv(g) && Paths(g) && DeliverStep(g, g', p, now, targets) && p.msg.PreAcceptReply?
    ensures Paths(g')
  {
    hide *;
    InvParts(g);
    DeliveryColumns(g, g', p, now, targets);
    var out := ReplyArrives(g, g', p, now, targets);
    ReplyStep(g, g', p, now, targets);
    ExchangeTraffic(g, g', p, out);
    TouchPaths(g, g', p.dst, p.msg.id);
  }

  // ---------------------------------------------------------------- runs

  lemma PathsExecute(g: Global, g': Global, s: nat, space: Space, ex: Execution)
    requires Inv(g) && Paths(g) && ExecuteStep(g, g', s, space, ex)
    ensures Paths(g')
  {
    hide Rounds, Votes, Executions, Leaders, Entries, Packets, Local, Path, ExecutionOk;
    ExecuteKeeps(g, g', s, space, ex);
    forall id | Started(g', id) ensures Path(g', id) {
      assert SameInstance(Sp(g, id.replica)[id], Sp(g', id.replica)[id]);
      PathOther(g, g', id);
    }
  }

  lemma StepPaths(g: Global, g': Global, step: Step)
    requires Inv(g) && Paths(g) && NextStep(g, g', step)
    ensures Paths(g')
  {
    hide Inv, Paths, DeliverStep, ProposeStep, ExecuteStep;
    match step {
      case Proposing(s, c, waits, now, targets) =>
        PathsPropose(g, g', s, c, waits, now, targets);
      case Delivering(p, now, targets) =>
        match p.msg {
          case PreAccept(_, _, _, _, _, _) => PathsPeer(g, g', p, now, targets);
          case PreAcceptReply(_, _, _, _, _, _, _) => PathsReply(g, g', p, now, targets);
          case Accept(_, _, _, _, _) => PathsPeer(g, g', p, now, targets);
          case AcceptReply(_, _) => PathsAcceptReply(g, g', p, now, targets);
          case Commit(_, _, _, _, _, _) => PathsPeer(g, g', p, now, targets);
        }
      case Executing(s, space, ex) =>
        PathsExecute(g, g', s, space, ex);
    }
  }

  lemma {:induction false} RunPaths(run: seq<Global>, steps: seq<Step>, i: nat)
    requires IsRun(run, steps) && i < |run|
    ensures Inv(run[i]) && Paths(run[i])
  {
    hide Inv, NextStep, Paths;
    RunInv(run, steps, i);
    if i == 0 {
      NoPaths(run[0]);
    } else {
      RunPaths(run, steps, i - 1);
      StepPaths(run[i - 1], run[i], steps[i - 1]);
    }
  }

  lemma NoPaths(g: Global)
    requires Init(g)
    ensures Paths(g)
  {
    assert forall id :: !Started(g, id);
  }

  // ---------------------------------------------------------------- theorems

  /** In every run, at the moment when a PreAcceptReply reaches its leader: before the last reply of the fast
      quorum nothing happens, and at that reply the leader commits and sends Commits if all replies carry the
      same Seq and Deps (and, with more than seven replicas, the columns are covered), and otherwise enters the
      Accept phase and sends Accepts. */
  lemma LeaderMovesOn(run: seq<Global>, steps: seq<Step>, i: nat)
    requires IsRun(run, steps) && i < |steps| && steps[i].Delivering? && steps[i].p.msg.PreAcceptReply?
    ensures var g, g', id := run[i], run[i + 1], steps[i].p.msg.id;
      && Started(g, id) && Open(Lb(g, id)) && Started(g', id)
      && |Counted(g', id)| <= g.f + (g.f + 1) / 2 - 1
      && (|Counted(g', id)| < g.f + (g.f + 1) / 2 - 1 ==> Open(Lb(g', id)) && g'.sent == g.sent)
      && (|Counted(g', id)| == g.f + (g.f + 1) / 2 - 1 ==>
            Lb(g', id).status == if Unanimous(g', id) && Covered(g', id, LeaderState(g, id), Lb(g, id).originalDeps)
                                 then COMMITTED else ACCEPTED)
      && (forall q :: q in g'.sent && q !in g.sent ==>
            q.msg.id == id && if Lb(g', id).status == COMMITTED then q.msg.Commit? else q.msg.Accept?)
      && (!Open(Lb(g', id)) ==> forall a :: a in steps[i].targets ==> SentTo(g, g', a))
  {
    assert |run| == |steps| + 1;
    hide *;
    var g, g', step := run[i], run[i + 1], steps[i];
    RunPaths(run, steps, i);
    RunPaths(run, steps, i + 1);
    TheStep(run, steps, i);
    InvParts(g');
    ReplyStep(g, g', step.p, step.now, step.targets);
    var out := ReplyArrives(g, g', step.p, step.now, step.targets);
    CountedSoFar(g', step.p.msg.id);
    MovesAre(g, g', step.p, out, step.targets);
  }

  ghost predicate SentTo(g: Global, g': Global, a: nat) {
    exists q :: q in g'.sent && q !in g.sent && q.dst == a
  }

  lemma TheStep(run: seq<Global>, steps: seq<Step>, i: nat)
    requires IsRun(run, steps) && i < |steps| && steps[i].Delivering?
    ensures DeliverStep(run[i], run[i + 1], steps[i].p, steps[i].now, steps[i].targets)
  {
    hide DeliverStep;
    assert NextStep(run[i], run[i + 1], steps[i]);
  }

  /** How many replies have reached the leader, and what that means for it. */
  lemma CountedSoFar(g: Global, id: Id)
    requires Basic(g) && Rounds(g) && Started(g, id)
    ensures |Counted(g, id)| <= g.f + (g.f + 1) / 2 - 1
    ensures Open(Lb(g, id)) <==> |Counted(g, id)| < g.f + (g.f + 1) / 2 - 1
  {
    hide Leaders, Entries, Packets, Local, PendingOk, Merged, AcceptsOk;
    assert RoundOk(g, id);
    OpenOrFixed(g, id);
    SubsetCardinality(Counted(g, id), Asked(g.sent, id));
  }

  lemma MovesAre(g: Global, g': Global, p: Packet, out: set<Packet>, targets: seq<nat>)
    requires Started(g, p.msg.id) && Started(g', p.msg.id) && Open(Lb(g, p.msg.id)) && Exchange(g, g', p, out)
    requires Decision(g', p.msg.id, LeaderState(g, p.msg.id), Lb(g, p.msg.id), Lb(g', p.msg.id))
    requires Sends(out, Lb(g', p.msg.id), targets) && (Open(Lb(g', p.msg.id)) || Fixed(Lb(g', p.msg.id)))
    ensures var lb' := Lb(g', p.msg.id);
      && (Open(lb') ==> g'.sent == g.sent)
      && (!Open(lb') ==> lb'.status == if Unanimous(g', p.msg.id)
                           && Covered(g', p.msg.id, LeaderState(g, p.msg.id), Lb(g, p.msg.id).originalDeps) then COMMITTED else ACCEPTED)
      && (forall q :: q in g'.sent && q !in g.sent ==> q.msg.id == p.msg.id && if lb'.status == COMMITTED then q.msg.Commit? else q.msg.Accept?)
      && (!Open(lb') ==> forall a :: a in targets ==> SentTo(g, g', a))
  {
    hide Unanimous, Covered;
    forall a | a in targets && !Open(Lb(g', p.msg.id)) ensures SentTo(g, g', a) {
      assert Reaches(out, a);
    }
  }

  /** In every state of every run: the leader waits for exactly F + (F + 1) / 2 - 1 replies; if it committed
      without AcceptReplies then its replies agree and it sent no Accept; if it went through the Accept phase
      then two replies differ or a column was not covered, and it commits at the F-th AcceptReply. What it
      decides is the largest Seq and, column by column, the largest dependency among the replies. */
  lemma PathTaken(run: seq<Global>, steps: seq<Step>, i: nat, id: Id)
    requires IsRun(run, steps) && i < |run| && Started(run[i], id)
    ensures var g, lb := run[i], Lb(run[i], id);
      && (Open(lb) <==> |Counted(g, id)| < g.f + (g.f + 1) / 2 - 1)
      && (Fast(lb) ==> Unanimous(g, id) && Covered(g, id, LeaderState(g, id), lb.originalDeps) && NoAccept(g, id))
      && (Slow(lb) ==> !Unanimous(g, id) || Uncovered(g, id, lb.originalDeps))
      && (lb.status == ACCEPTED ==> lb.acceptOKs == |AcceptCounted(g, id)| < g.f)
      && (lb.status == COMMITTED && lb.acceptOKs > 0 ==> lb.acceptOKs == g.f <= |AcceptCounted(g, id)|)
      && (Fixed(lb) ==> (Fast(lb) || Slow(lb)) && MergedExactly(g, id, lb.seqno, lb.deps))
  {
    hide *;
    RunPaths(run, steps, i);
    InvParts(run[i]);
    PathAt(run[i], id);
    CountedSoFar(run[i], id);
    OpenOrFixed(run[i], id);
    PathSays(run[i], id);
  }

  lemma PathSays(g: Global, id: Id)
    requires Started(g, id) && Path(g, id)
    ensures var lb := Lb(g, id);
      && (Fast(lb) ==> Unanimous(g, id) && Covered(g, id, LeaderState(g, id), lb.originalDeps) && NoAccept(g, id))
      && (Slow(lb) ==> !Unanimous(g, id) || Uncovered(g, id, lb.originalDeps))
      && (lb.status == ACCEPTED ==> lb.acceptOKs == |AcceptCounted(g, id)| < g.f)
      && (lb.status == COMMITTED && lb.acceptOKs > 0 ==> lb.acceptOKs == g.f <= |AcceptCounted(g, id)|)
      && (Fixed(lb) ==> (Fast(lb) || Slow(lb)) && MergedExactly(g, id, lb.seqno, lb.deps))
  {
    hide Unanimous, Covered, Uncovered, NoAccept, MergedExactly, AcceptCounted;
  }
}
