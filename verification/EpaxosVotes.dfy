/** Ordering votes: the leader of an instance and every peer that replies to its PreAccept vote on its
    dependencies, and a replica that votes on two interfering instances lets the later one see the
    earlier one. With quorum intersection this links any two interfering committed instances. */
module EpaxosVotes {
  import opened State
  import opened Sequences
  import opened Traces
  import opened DepGraph
  import opened Options
  import opened EpaxosTypes
  import opened EpaxosSpec
  import opened EpaxosProtocol
  import opened EpaxosBasic
  import opened EpaxosRounds
  import opened SccSearch

  /** Conflicting commands among PUT, GET and NONE. */
  predicate Interfere(c: Command, d: Command) {
    c.op != SCAN && d.op != SCAN && Conflict(c, d)
  }

  /** y is one of the instances that deps point to. */
  predicate Covers(deps: seq<int>, y: Id) {
    y.replica < |deps| && y.instance <= deps[y.replica]
  }

  /** Replica s contributed deps to the decision about id. */
  ghost predicate Vote(g: Global, s: nat, id: Id, deps: seq<int>) {
    Started(g, id)
    && ((s == id.replica && deps == Lb(g, id).originalDeps) || ReplySent(g.sent, s, id, deps))
  }

  ghost predicate ReplySent(sent: set<Packet>, s: nat, id: Id, deps: seq<int>) {
    exists p :: p in sent && IsReply(p, id) && p.src == s && p.msg.deps == deps
  }

  ghost function Cmd(g: Global, id: Id): Command
  {
    if Started(g, id) && Lb(g, id).cmds != [] then Lb(g, id).cmds[0] else Command(NONE, 0, NIL)
  }

  /** Whoever voted on an instance has it in its conflict index. */
  ghost predicate VoteSeen(g: Global) {
    forall s: nat, id, deps :: Vote(g, s, id, deps) ==> s < |g.nodes| && Indexed(g.nodes[s].rs, id, Cmd(g, id))
  }

  /** Peers ignore the column of the proposing replica, so only that replica orders its own instances. */
  ghost predicate Comparable(s: nat, x: Id, y: Id) {
    x != y && (x.replica != y.replica || s == x.replica)
  }

  ghost predicate VoteOrder(g: Global) {
    forall s: nat, x, y, dx, dy | Vote(g, s, x, dx) && Vote(g, s, y, dy) && Comparable(s, x, y)
      && Interfere(Cmd(g, x), Cmd(g, y)) :: Covers(dx, y) || Covers(dy, x)
  }

  ghost predicate Votes(g: Global) {
    VoteSeen(g) && VoteOrder(g)
  }

  // ---------------------------------------------------------------- what updateAttributes covers

  /** updateAttributes makes a command depend on every interfering one in the index, except in a
      skipped column. */
  lemma AttributesCover(st: RState, c: Command, seqno: int, deps: seq<int>, replica: nat, x: Id, d: Command)
    requires ConflictsKnown(st) && |deps| == st.n && AtLeastNil(deps)
    requires Indexed(st, x, d) && Interfere(c, d)
    requires !SkippedColumn(st, replica, x.replica)
    ensures Covers(UpdateAttributes(st, [c], seqno, deps, replica).deps, x)
  {
    var column := st.conflicts[x.replica];
    var a := UpdateDeps(st, [c], seqno, deps, replica, st.n);
    assert FirstRaise(column, [c], deps[x.replica], 1) == None;
    assert x.instance <= LastConflict(column, c);
  }

  // ---------------------------------------------------------------- votes over a step

  /** The votes of g' are those of g and, possibly, one new vote. */
  ghost predicate OneVote(g: Global, g': Global, s: nat, id: Id, deps: seq<int>) {
    forall r: nat, x, d :: Vote(g', r, x, d) ==> Vote(g, r, x, d) || (r == s && x == id && d == deps)
  }

  ghost predicate NoVote(g: Global, g': Global) {
    forall r: nat, x, d :: Vote(g', r, x, d) ==> Vote(g, r, x, d)
  }

  ghost predicate IndexesGrow(g: Global, g': Global) {
    |g.nodes| == |g'.nodes| && forall r :: 0 <= r < |g.nodes| ==> IndexGrows(g.nodes[r].rs, g'.nodes[r].rs)
  }

  lemma VoteKept(g: Global, g': Global, s: nat, id: Id, deps: seq<int>)
    requires Evolves(g, g') && Vote(g, s, id, deps)
    ensures Vote(g', s, id, deps) && Cmd(g', id) == Cmd(g, id)
  {
    if ReplySent(g.sent, s, id, deps) {
      assert ReplySent(g'.sent, s, id, deps);
    }
  }

  lemma SeenKept(g: Global, g': Global, s: nat, id: Id, deps: seq<int>)
    requires VoteSeen(g) && Evolves(g, g') && IndexesGrow(g, g') && Vote(g, s, id, deps)
    ensures s < |g'.nodes| && Indexed(g'.nodes[s].rs, id, Cmd(g', id)) && Cmd(g', id) == Cmd(g, id)
  {
    hide Indexed, Vote, Evolves;
    VoteKept(g, g', s, id, deps);
  }

  lemma VotesUnchanged(g: Global, g': Global)
    requires Votes(g) && Evolves(g, g') && IndexesGrow(g, g') && NoVote(g, g')
    ensures Votes(g')
  {
    hide Indexed, Vote, Evolves, Covers, Interfere, Comparable, IndexesGrow;
    forall s: nat, id, deps | Vote(g', s, id, deps)
      ensures s < |g'.nodes| && Indexed(g'.nodes[s].rs, id, Cmd(g', id)) && Cmd(g', id) == Cmd(g, id)
    {
      SeenKept(g, g', s, id, deps);
    }
  }

  /** The new vote covers what its voter has seen. */
  ghost predicate NewVoteCovers(g: Global, s: nat, id: Id, c: Command, deps: seq<int>) {
    s < |g.nodes|
    && forall x, d :: Indexed(g.nodes[s].rs, x, d) && Interfere(c, d) && (x.replica != id.replica || s == id.replica) ==>
         Covers(deps, x)
  }

  lemma VotesWithNew(g: Global, g': Global, s: nat, id: Id, deps: seq<int>)
    requires Votes(g) && Evolves(g, g') && IndexesGrow(g, g') && OneVote(g, g', s, id, deps)
    requires Started(g', id) && s < |g'.nodes| && Indexed(g'.nodes[s].rs, id, Cmd(g', id))
    requires NewVoteCovers(g, s, id, Cmd(g', id), deps)
    requires forall d :: !Vote(g, s, id, d)
    ensures Votes(g')
  {
    hide Indexed, Vote, Evolves, Covers, Interfere, IndexesGrow;
    forall r: nat, x, d | Vote(g', r, x, d)
      ensures r < |g'.nodes| && Indexed(g'.nodes[r].rs, x, Cmd(g', x))
    {
      if Vote(g, r, x, d) {
        SeenKept(g, g', r, x, d);
      }
    }
    forall r: nat, x, y, dx, dy | Vote(g', r, x, dx) && Vote(g', r, y, dy) && Comparable(r, x, y)
        && Interfere(Cmd(g', x), Cmd(g', y))
      ensures Covers(dx, y) || Covers(dy, x)
    {
      InterfereSymmetric(Cmd(g', x), Cmd(g', y));
      if Vote(g, r, x, dx) {
        SeenKept(g, g', r, x, dx);
      }
      if Vote(g, r, y, dy) {
        SeenKept(g, g', r, y, dy);
      }
    }
  }

  lemma InterfereSymmetric(c: Command, d: Command)
    ensures Interfere(c, d) == Interfere(d, c)
  {
  }

  lemma TouchIndexes(g: Global, g': Global, s: nat, id: Id)
    requires Touch(g, g', s, id)
    ensures IndexesGrow(g, g')
  {
    forall r | 0 <= r < |g.nodes| ensures IndexGrows(g.nodes[r].rs, g'.nodes[r].rs) {
      assert r != s ==> g'.nodes[r].rs == g.nodes[r].rs;
    }
  }

  /** A step that starts no instance and sends no reply makes no vote. */
  lemma QuietVotes(g: Global, g': Global, s: nat, id: Id)
    requires Votes(g) && Evolves(g, g') && IndexesGrow(g, g')
    requires forall x :: Started(g', x) ==> Started(g, x)
    requires forall p :: p in g'.sent && p.msg.PreAcceptReply? ==> p in g.sent
    ensures Votes(g')
  {
    forall r: nat, x, d | Vote(g', r, x, d) ensures Vote(g, r, x, d) {
      assert Started(g, x) && LbLe(Lb(g, x), Lb(g', x));
      if ReplySent(g'.sent, r, x, d) {
        assert ReplySent(g.sent, r, x, d);
      }
    }
    VotesUnchanged(g, g');
  }

  // ---------------------------------------------------------------- propose

  /** The leader's own vote covers every interfering instance it has seen. */
  lemma ProposalCovers(st: RState, c: Command, waits: bool, now: int, targets: seq<nat>)
    requires Local(st) && NextId(st) !in st.space && WellFormed(c)
    ensures var o, id := Propose(st, [c], waits, now, targets), NextId(st);
      id in o.st.space && o.st.space[id].lb.Some?
      && forall x, d :: Indexed(st, x, d) && Interfere(c, d) ==> Covers(o.st.space[id].lb.value.originalDeps, x)
  {
    var st1 := st.(crtInstance := st.crtInstance[st.id := st.crtInstance[st.id] + 1]);
    var o, id := Propose(st, [c], waits, now, targets), NextId(st);
    var deps := UpdateAttributes(st1, [c], 0, NilDeps(st.n), st.id).deps;
    hide UpdateAttributes, UpdateConflicts, Interfere;
    assert o.st.space[id].lb.value.originalDeps == deps;
    forall x, d | Indexed(st, x, d) && Interfere(c, d) ensures Covers(deps, x) {
      AttributesCover(st1, c, 0, NilDeps(st.n), st.id, x, d);
    }
  }

  lemma VotesPropose(g: Global, g': Global, s: nat, c: Command, waits: bool, now: int, targets: seq<nat>)
    requires Basic(g) && Votes(g) && ProposeStep(g, g', s, c, waits, now, targets)
    ensures Votes(g')
  {
    ProposeFacts(g, g', s, c, waits, now, targets);
    hide *;
    var rs := g.nodes[s].rs;
    var id := NextId(rs);
    BasicPropose(g, g', s, c, waits, now, targets);
    ProposalCovers(rs, c, waits, now, targets);
    Unknown(g, id);
    TouchIndexes(g, g', s, id);
    NewLeaderStarted(g', s, id, c);
    ProposalVotes(g, g', s, id);
    ProposalNewVote(g, s, id, c, Lb(g', id).originalDeps);
    VotesWithNew(g, g', s, id, Lb(g', id).originalDeps);
  }

  lemma NewLeaderStarted(g: Global, s: nat, id: Id, c: Command)
    requires s < |g.nodes| && id.replica == s && id in Sp(g, s) && Sp(g, s)[id].lb.Some?
    requires Sp(g, s)[id].lb.value.cmds == [c]
    ensures Started(g, id) && Cmd(g, id) == c && Lb(g, id) == Sp(g, s)[id].lb.value
  {
  }

  lemma ProposalNewVote(g: Global, s: nat, id: Id, c: Command, deps: seq<int>)
    requires s < |g.nodes| && id.replica == s
    requires forall x, d :: Indexed(g.nodes[s].rs, x, d) && Interfere(c, d) ==> Covers(deps, x)
    ensures NewVoteCovers(g, s, id, c, deps)
  {
  }

  lemma ProposalVotes(g: Global, g': Global, s: nat, id: Id)
    requires Touch(g, g', s, id) && id.replica == s && !Started(g, id) && Started(g', id)
    requires forall p :: p in g'.sent && p !in g.sent ==> p.msg.PreAccept?
    requires forall p :: p in g.sent ==> p.msg.id != id
    ensures OneVote(g, g', s, id, Lb(g', id).originalDeps)
    ensures forall d :: !Vote(g, s, id, d)
  {
    hide Local, IndexGrows;
    forall r: nat, x, d | Vote(g', r, x, d)
      ensures Vote(g, r, x, d) || (r == s && x == id && d == Lb(g', id).originalDeps)
    {
      if x != id {
        OtherStays(g, g', s, id, x);
      }
      if ReplySent(g'.sent, r, x, d) {
        assert ReplySent(g.sent, r, x, d);
      }
    }
  }

  // ---------------------------------------------------------------- PreAccept

  lemma ReplyCovers(st: RState, m: Msg, now: int, o: Outcome, c: Command)
    requires CanHandle(st, m) && m.PreAccept? && PreAcceptResult(st, m, now, o) && m.command == [c]
    requires m.id.replica != st.id
    ensures forall x, d :: Indexed(st, x, d) && Interfere(c, d) && x.replica != m.id.replica ==>
              Covers(o.st.space[m.id].deps, x)
  {
    var st2 := PreAcceptState(st, m, now);
    hide UpdateAttributes, Interfere, ConflictsKnown;
    forall x, d | Indexed(st, x, d) && Interfere(c, d) && x.replica != m.id.replica
      ensures Covers(o.st.space[m.id].deps, x)
    {
      assert Indexed(st2, x, d);
      AttributesCover(st2, c, m.seqno, m.deps, m.id.replica, x, d);
    }
  }

  lemma VotesPreAccept(g: Global, g': Global, p: Packet, now: int, targets: seq<nat>)
    requires Basic(g) && Rounds(g) && Votes(g) && DeliverStep(g, g', p, now, targets) && p.msg.PreAccept?
    ensures Votes(g')
  {
    PreAcceptStep(g, g', p, now, targets);
    var rs, id, o := g.nodes[p.dst].rs, p.msg.id, HandlePreAccept(g.nodes[p.dst].rs, p.msg, now);
    hide *;
    PendingAt(g, p);
    RoundsPreAccept(g, g', p, now, targets);
    PeerSays(g, p, now, o);
    ReplyCovers(rs, p.msg, now, o, Cmd(g, id));
    TouchIndexes(g, g', p.dst, id);
    var deps := o.st.space[id].deps;
    PeerVotes(g, g', p, o.out[0], deps);
    VoterKnows(g', p.dst, id);
    assert NewVoteCovers(g, p.dst, id, Cmd(g', id), deps) by {
      CoversFromIndex(g, p.dst, id, Cmd(g', id), deps);
    }
    VotesWithNew(g, g', p.dst, id, deps);
  }

  lemma CoversFromIndex(g: Global, s: nat, id: Id, c: Command, deps: seq<int>)
    requires s < |g.nodes| && s != id.replica
    requires forall x, d :: Indexed(g.nodes[s].rs, x, d) && Interfere(c, d) && x.replica != id.replica ==> Covers(deps, x)
    ensures NewVoteCovers(g, s, id, c, deps)
  {
  }

  lemma PreAcceptStep(g: Global, g': Global, p: Packet, now: int, targets: seq<nat>)
    requires Basic(g) && Rounds(g) && DeliverStep(g, g', p, now, targets) && p.msg.PreAccept?
    ensures p in g.net && p.dst < |g.nodes| == |g'.nodes| && CanHandle(g.nodes[p.dst].rs, p.msg)
    ensures var o := HandlePreAccept(g.nodes[p.dst].rs, p.msg, now);
      g'.nodes[p.dst].rs == o.st && (|o.out| == 1 ==> g'.sent == g.sent + {o.out[0]}) && p.dst < g'.n == |g'.nodes|
    ensures g.nodes[p.dst].rs.id == p.dst
    ensures Sp(g', p.dst) == HandlePreAccept(g.nodes[p.dst].rs, p.msg, now).st.space
  {
    hide LeaderOk, EntryOk, HandlePreAccept, Leaders, Entries, ConflictsKnown, Rounds;
    var o := HandlePreAccept(g.nodes[p.dst].rs, p.msg, now);
    assert |o.out| == 1 ==> SetOf(o.out) == {o.out[0]};
  }

  lemma PeerSays(g: Global, p: Packet, now: int, o: Outcome)
    requires Basic(g) && p in g.net && p.msg.PreAccept? && p.dst < |g.nodes| && CanHandle(g.nodes[p.dst].rs, p.msg)
    requires PreAcceptResult(g.nodes[p.dst].rs, p.msg, now, o)
    ensures Started(g, p.msg.id) && p.msg.command == [Cmd(g, p.msg.id)] && p.msg.id.replica != p.dst
    ensures p.msg.id in o.st.space && o.st.space[p.msg.id].cmds == Some(p.msg.command)
    ensures |o.out| == 1 && IsReply(o.out[0], p.msg.id) && o.out[0].src == p.dst
    ensures o.out[0].msg.deps == o.st.space[p.msg.id].deps
  {
    hide EntryOk, UpdateAttributes, Local;
    LeaderAt(g, p);
  }

  lemma PeerVotes(g: Global, g': Global, p: Packet, reply: Packet, deps: seq<int>)
    requires Touch(g, g', p.dst, p.msg.id) && p.msg.id.replica != p.dst && Started(g, p.msg.id)
    requires IsReply(reply, p.msg.id) && reply.src == p.dst && reply.msg.deps == deps && g'.sent == g.sent + {reply}
    requires forall q :: q in g.sent && q.msg.PreAcceptReply? && q.msg.id == p.msg.id ==> q.src != p.dst
    ensures OneVote(g, g', p.dst, p.msg.id, deps) && Started(g', p.msg.id) && Cmd(g', p.msg.id) == Cmd(g, p.msg.id)
    ensures forall d :: !Vote(g, p.dst, p.msg.id, d)
  {
    hide Local, IndexGrows;
    var id, s := p.msg.id, p.dst;
    assert Sp(g', id.replica) == Sp(g, id.replica);
    forall r: nat, x, d | Vote(g', r, x, d) ensures Vote(g, r, x, d) || (r == s && x == id && d == deps) {
      if x != id {
        OtherStays(g, g', s, id, x);
      }
      if ReplySent(g'.sent, r, x, d) && (r != s || x != id || d != deps) {
        assert ReplySent(g.sent, r, x, d);
      }
    }
  }

  lemma VoterKnows(g: Global, s: nat, id: Id)
    requires Basic(g) && s < g.n && id in Sp(g, s) && Sp(g, s)[id].cmds.Some?
    ensures Started(g, id) && Indexed(g.nodes[s].rs, id, Cmd(g, id))
  {
    hide LeaderOk, PacketOk, Local, Indexed;
    assert EntryOk(g, s, id);
  }
}
