/** Counting replies and ordering votes: the part of the EPaxos invariant that speaks about quorums. */
module EpaxosRounds {
  import opened State
  import opened Sequences
  import opened Sets
  import opened Traces
  import opened DepGraph
  import opened Options
  import opened EpaxosTypes
  import opened EpaxosSpec
  import opened EpaxosProtocol
  import opened EpaxosBasic
  import opened SccSearch

  // ---------------------------------------------------------------- rounds

  predicate IsPreAccept(p: Packet, id: Id) {
    p.msg.PreAccept? && p.msg.id == id
  }

  predicate IsReply(p: Packet, id: Id) {
    p.msg.PreAcceptReply? && p.msg.id == id
  }

  /** The peers that the leader of id asked. */
  ghost function Asked(sent: set<Packet>, id: Id): set<nat> {
    set p | p in sent && IsPreAccept(p, id) :: p.dst
  }

  /** The peers whose replies reached the leader of id. */
  ghost function Counted(g: Global, id: Id): set<nat> {
    set p | p in g.sent && p !in g.net && IsReply(p, id) :: p.src
  }

  /** Every reply about id comes from a peer that was asked, and no peer replies twice. */
  ghost predicate RepliesOk(g: Global, id: Id) {
    && (forall p :: p in g.sent && IsReply(p, id) ==> p.src in Asked(g.sent, id))
    && (forall p, q :: p in g.sent && q in g.sent && IsReply(p, id) && IsReply(q, id) && p.src == q.src ==> p == q)
  }

  /** A peer whose PreAccept is still in flight has not replied and does not know the instance. */
  ghost predicate PendingOk(g: Global, id: Id) {
    forall p :: p in g.net && IsPreAccept(p, id) ==>
      && p.dst < |g.nodes| && id !in Sp(g, p.dst)
      && forall q :: q in g.sent && IsReply(q, id) ==> q.src != p.dst
  }

  ghost predicate TallyCounts(g: Global, id: Id)
    requires Started(g, id)
  {
    && |Asked(g.sent, id)| <= FastQuorumSize(g.f) - 1
    && (Open(Lb(g, id)) ==>
          Lb(g, id).preAcceptOKs == |Counted(g, id)| && Lb(g, id).preAcceptOKs < FastQuorumSize(g.f) - 1)
    && (Fixed(Lb(g, id)) ==> |Counted(g, id)| >= FastQuorumSize(g.f) - 1)
  }

  ghost predicate Merged(g: Global, id: Id)
    requires Started(g, id)
  {
    forall p :: p in g.sent && p !in g.net && IsReply(p, id) ==> GeDeps(Lb(g, id).deps, p.msg.deps)
  }

  /** An AcceptReply answers an Accept that arrived. */
  ghost predicate AcceptsOk(g: Global, id: Id) {
    forall p :: p in g.sent && p.msg.AcceptReply? && p.msg.id == id ==> AcceptArrived(g, id, p.src)
  }

  ghost predicate AcceptArrived(g: Global, id: Id, a: nat) {
    exists q :: q in g.sent && q !in g.net && q.msg.Accept? && q.msg.id == id && q.dst == a
  }

  ghost predicate RoundOk(g: Global, id: Id)
    requires Started(g, id)
  {
    RepliesOk(g, id) && PendingOk(g, id) && TallyCounts(g, id) && Merged(g, id) && AcceptsOk(g, id)
  }

  ghost predicate Rounds(g: Global) {
    forall id :: Started(g, id) ==> RoundOk(g, id)
  }

  /** Once a leader has decided, everyone it asked has replied: no PreAccept and no PreAcceptReply
      about the instance is in flight. */
  lemma DecidedMeansAllReplied(g: Global, id: Id)
    requires Basic(g) && Started(g, id) && RoundOk(g, id) && Fixed(Lb(g, id))
    ensures Counted(g, id) == Asked(g.sent, id)
    ensures forall p :: p in g.net ==> !IsPreAccept(p, id) && !IsReply(p, id)
  {
    hide Leaders, Entries, Shape, PacketOk;
    var counted, asked := Counted(g, id), Asked(g.sent, id);
    assert counted <= asked;
    SubsetCardinality(counted, asked);
    if counted != asked {
      assert false;
    }
    forall a | a in asked ensures exists q :: q in g.sent && q !in g.net && IsReply(q, id) && q.src == a {
      assert a in counted;
    }
    assert forall p :: p in g.net ==> p in g.sent;
    assert forall p :: p in g.sent && IsPreAccept(p, id) ==> p.dst in asked;
  }

  // ---------------------------------------------------------------- rounds of other instances

  /** The step neither sends nor delivers a message about id. */
  ghost predicate SameTraffic(g: Global, g': Global, id: Id) {
    forall p: Packet :: p.msg.id == id ==> (p in g.sent <==> p in g'.sent) && (p in g.net <==> p in g'.net)
  }

  lemma SameSets(g: Global, g': Global, id: Id)
    requires SameTraffic(g, g', id)
    ensures Asked(g'.sent, id) == Asked(g.sent, id) && Counted(g', id) == Counted(g, id)
  {
  }

  lemma RoundOther(g: Global, g': Global, id: Id)
    requires SameTraffic(g, g', id) && g'.f == g.f && |g'.nodes| == |g.nodes|
    requires Started(g, id) && Started(g', id) && Lb(g', id) == Lb(g, id) && RoundOk(g, id)
    requires forall r :: 0 <= r < |g.nodes| ==> (id in Sp(g', r) <==> id in Sp(g, r))
    ensures RoundOk(g', id)
  {
    SameSets(g, g', id);
    forall p | p in g'.sent && p.msg.AcceptReply? && p.msg.id == id ensures AcceptArrived(g', id, p.src) {
      assert AcceptArrived(g, id, p.src);
    }
  }

  lemma TouchRounds(g: Global, g': Global, s: nat, id: Id)
    requires Basic(g) && Basic(g') && Rounds(g) && Touch(g, g', s, id)
    requires forall x :: x != id ==> SameTraffic(g, g', x)
    requires Started(g', id) ==> RoundOk(g', id)
    ensures Rounds(g')
  {
    hide LeaderOk, EntryOk, PacketOk, Local, IndexGrows, RoundOk;
    forall x | Started(g', x) ensures RoundOk(g', x) {
      if x != id {
        OtherStays(g, g', s, id, x);
        RoundOther(g, g', x);
      }
    }
  }

  lemma OtherStays(g: Global, g': Global, s: nat, id: Id, x: Id)
    requires Touch(g, g', s, id) && x != id && Started(g', x)
    ensures Started(g, x) && Lb(g', x) == Lb(g, x)
    ensures forall r :: 0 <= r < |g.nodes| ==> (x in Sp(g', r) <==> x in Sp(g, r))
  {
  }

  // ---------------------------------------------------------------- propose

  ghost function Members(xs: seq<nat>): set<nat> {
    set x | x in xs
  }

  lemma {:induction false} MembersCardinality(xs: seq<nat>)
    ensures |Members(xs)| <= |xs|
  {
    if xs != [] {
      MembersCardinality(xs[1..]);
      assert Members(xs) == {xs[0]} + Members(xs[1..]);
    }
  }

  lemma RoundsPropose(g: Global, g': Global, s: nat, c: Command, waits: bool, now: int, targets: seq<nat>)
    requires Basic(g) && Rounds(g) && ProposeStep(g, g', s, c, waits, now, targets)
    ensures Rounds(g')
  {
    var rs := g.nodes[s].rs;
    var id := NextId(rs);
    hide Evolves, LeaderOk, EntryOk, Local, Propose, IndexGrows, ConflictsKnown, RoundOk, Rounds;
    BasicPropose(g, g', s, c, waits, now, targets);
    NextIdIsNew(g, s);
    ProposeLocal(rs, c, waits, now, targets);
    Unknown(g, id);
    var m := PreAccept(id, s, s, [c], -1, g'.nodes[s].rs.space[id].lb.value.originalDeps);
    BroadcastTo(rs, FastQuorumSize(g.f) - 1, targets, m);
    NewRound(g, g', id, Members(targets), SetOf(Broadcast(s, targets, m)));
    TouchRounds(g, g', s, id);
  }

  /** Nobody has heard of an instance that its leader has not proposed. */
  lemma Unknown(g: Global, id: Id)
    requires Basic(g) && !Started(g, id)
    ensures forall p :: p in g.sent ==> p.msg.id != id
    ensures forall r :: 0 <= r < |g.nodes| ==> id !in Sp(g, r)
  {
    hide LeaderOk, Local, Indexed;
    forall p | p in g.sent ensures p.msg.id != id {
      assert PacketOk(g, p);
    }
    forall r | 0 <= r < |g.nodes| ensures id !in Sp(g, r) {
      assert id in Sp(g, r) ==> EntryOk(g, r, id);
    }
  }

  /** Where a broadcast goes. */
  lemma BroadcastTo(st: RState, limit: nat, targets: seq<nat>, m: Msg)
    requires TargetsOk(st, limit, targets)
    ensures forall p :: p in SetOf(Broadcast(st.id, targets, m)) ==> p.msg == m && p.dst in Members(targets)
    ensures forall a :: a in Members(targets) ==> a < st.n && a != st.id
    ensures |Members(targets)| <= limit
  {
    MembersCardinality(targets);
  }

  lemma NewRound(g: Global, g': Global, id: Id, asked: set<nat>, out: set<Packet>)
    requires Touch(g, g', id.replica, id) && Started(g', id) && g.f >= 1
    requires Open(Lb(g', id)) && Lb(g', id).preAcceptOKs == 0
    requires forall p :: p in g.sent ==> p.msg.id != id
    requires g.net <= g.sent
    requires forall r :: 0 <= r < |g.nodes| ==> id !in Sp(g, r)
    requires forall p :: p in out ==> IsPreAccept(p, id) && p.dst in asked
    requires forall a :: a in asked ==> a < |g.nodes| && a != id.replica
    requires |asked| <= FastQuorumSize(g.f) - 1
    requires g'.net == g.net + out && g'.sent == g.sent + out
    ensures RoundOk(g', id)
    ensures forall x :: x != id ==> SameTraffic(g, g', x)
  {
    hide RepliesOk, AcceptsOk, Merged, Touch;
    OtherSpaces(g, g', id.replica, id);
    OnlyPreAccepts(g', id);
    assert Asked(g'.sent, id) <= asked;
    SubsetCardinality(Asked(g'.sent, id), asked);
  }

  lemma OnlyPreAccepts(g: Global, id: Id)
    requires forall p :: p in g.sent && p.msg.id == id ==> p.msg.PreAccept?
    ensures RepliesOk(g, id) && AcceptsOk(g, id) && (Started(g, id) ==> Merged(g, id))
    ensures Counted(g, id) == {}
  {
  }

  // ---------------------------------------------------------------- PreAccept

  lemma RoundsPreAccept(g: Global, g': Global, p: Packet, now: int, targets: seq<nat>)
    requires Basic(g) && Rounds(g) && DeliverStep(g, g', p, now, targets) && p.msg.PreAccept?
    ensures Rounds(g') && Basic(g') && Evolves(g, g') && Touch(g, g', p.dst, p.msg.id)
    ensures PreAcceptResult(g.nodes[p.dst].rs, p.msg, now, HandlePreAccept(g.nodes[p.dst].rs, p.msg, now))
  {
    hide Evolves, LeaderOk, EntryOk, HandlePreAccept, UpdateAttributes, Touch, Leaders, Entries, ConflictsKnown;
    var id, s := p.msg.id, p.dst;
    LeaderAt(g, p);
    PendingAt(g, p);
    BasicPreAccept(g, g', p, now, targets);
    var o := HandlePreAccept(g.nodes[s].rs, p.msg, now);
    assert SetOf(o.out) == {o.out[0]};
    OtherPreAccepts(g, id);
    PeerRound(g, g', p, o.out[0]);
    TouchRounds(g, g', s, id);
  }

  lemma PendingAt(g: Global, p: Packet)
    requires Basic(g) && Rounds(g) && p in g.net && p.msg.PreAccept?
    ensures Started(g, p.msg.id) && RoundOk(g, p.msg.id)
    ensures p.dst < |g.nodes| && p.msg.id !in Sp(g, p.dst)
    ensures forall q :: q in g.sent && q.msg.PreAcceptReply? && q.msg.id == p.msg.id ==> q.src != p.dst
  {
    hide LeaderOk, EntryOk, Local;
    assert PacketOk(g, p);
    assert IsPreAccept(p, p.msg.id);
    assert forall q :: IsReply(q, p.msg.id) <==> q.msg.PreAcceptReply? && q.msg.id == p.msg.id;
  }

  /** All PreAccepts of an instance carry the same message. */
  lemma OtherPreAccepts(g: Global, id: Id)
    requires Basic(g)
    ensures forall p, q :: p in g.sent && q in g.sent && IsPreAccept(p, id) && IsPreAccept(q, id) && p.dst == q.dst ==> p == q
  {
    hide LeaderOk, EntryOk, Local;
    forall p, q | p in g.sent && q in g.sent && IsPreAccept(p, id) && IsPreAccept(q, id) && p.dst == q.dst
      ensures p == q
    {
      assert PacketOk(g, p) && PacketOk(g, q);
    }
  }

  lemma PeerRound(g: Global, g': Global, p: Packet, reply: Packet)
    requires Touch(g, g', p.dst, p.msg.id) && Started(g, p.msg.id) && RoundOk(g, p.msg.id) && p.msg.id.replica != p.dst
    requires p in g.net && g.net <= g.sent && IsPreAccept(p, p.msg.id)
    requires IsReply(reply, p.msg.id) && reply.src == p.dst
    requires g'.net == g.net - {p} + {reply} && g'.sent == g.sent + {reply}
    requires forall a, b | a in g.sent && b in g.sent && IsPreAccept(a, p.msg.id) && IsPreAccept(b, p.msg.id)
               && a.dst == b.dst :: a == b
    ensures Started(g', p.msg.id) && RoundOk(g', p.msg.id)
    ensures forall x :: x != p.msg.id ==> SameTraffic(g, g', x)
  {
    hide Local, IndexGrows, AcceptsOk, Touch;
    var id := p.msg.id;
    OtherSpaces(g, g', p.dst, id);
    assert Sp(g', id.replica) == Sp(g, id.replica);
    assert Asked(g'.sent, id) == Asked(g.sent, id);
    assert Counted(g', id) == Counted(g, id);
    assert p.dst in Asked(g.sent, id);
    AcceptsKept(g, g', id);
  }

  // ---------------------------------------------------------------- PreAcceptReply

  /** The leader of a reply in flight is still undecided. */
  lemma ReplyFindsOpen(g: Global, p: Packet)
    requires Basic(g) && Rounds(g) && p in g.net && p.msg.PreAcceptReply?
    ensures Started(g, p.msg.id) && RoundOk(g, p.msg.id) && Open(Lb(g, p.msg.id))
    ensures p.dst == p.msg.id.replica
  {
    hide EntryOk, Local, RoundOk;
    LeaderAt(g, p);
    assert IsReply(p, p.msg.id);
    if Fixed(Lb(g, p.msg.id)) {
      DecidedMeansAllReplied(g, p.msg.id);
    }
  }

  lemma RoundsReply(g: Global, g': Global, p: Packet, now: int, targets: seq<nat>)
    requires Basic(g) && Rounds(g) && DeliverStep(g, g', p, now, targets) && p.msg.PreAcceptReply?
    ensures Rounds(g') && Basic(g') && Evolves(g, g') && Touch(g, g', p.dst, p.msg.id)
  {
    hide Evolves, LeaderOk, EntryOk, HandlePreAcceptReply, Touch, Leaders, Entries, ConflictsKnown, RoundOk;
    var id, s := p.msg.id, p.dst;
    ReplyFindsOpen(g, p);
    BasicReply(g, g', p, now, targets);
    var o := HandlePreAcceptReply(g.nodes[s].rs, p.msg, targets);
    StartedStill(g, g', id);
    OpenOrFixed(g', id);
    assert o.st.space == Sp(g', s) && Lb(g', id) == o.st.space[id].lb.value;
    OutAbout(g, p, targets, o);
    ReplyTraffic(g, g', p, SetOf(o.out));
    ReplyRound(g, g', p, SetOf(o.out));
    TouchRounds(g, g', s, id);
  }

  lemma OpenOrFixed(g: Global, id: Id)
    requires Basic(g) && Started(g, id)
    ensures Open(Lb(g, id)) || Fixed(Lb(g, id))
    ensures Sp(g, id.replica)[id].lb.Some?
  {
    hide EntryOk, PacketOk, Local;
  }

  lemma StartedStill(g: Global, g': Global, id: Id)
    requires Evolves(g, g') && Started(g, id)
    ensures Started(g', id)
  {
  }

  /** A leader's answer to a reply is about the same instance and is an Accept or a Commit. */
  lemma OutAbout(g: Global, p: Packet, targets: seq<nat>, o: Outcome)
    requires p.msg.PreAcceptReply? && p.dst == p.msg.id.replica && Started(g, p.msg.id) && Open(Lb(g, p.msg.id))
    requires p.msg.id in o.st.space && o.st.space[p.msg.id].lb.Some?
    requires ReplyOutcome(g.nodes[p.dst].rs, p.msg, targets, o)
    requires Open(o.st.space[p.msg.id].lb.value) || Fixed(o.st.space[p.msg.id].lb.value)
    ensures forall q :: q in SetOf(o.out) ==> q.msg.id == p.msg.id && (q.msg.Accept? || q.msg.Commit?)
  {
  }

  lemma ReplyTraffic(g: Global, g': Global, p: Packet, out: set<Packet>)
    requires p in g.net && g.net <= g.sent && (forall q :: q in out ==> q.msg.id == p.msg.id)
    requires g'.net == g.net - {p} + out && g'.sent == g.sent + out
    ensures forall x :: x != p.msg.id ==> SameTraffic(g, g', x)
  {
  }

  lemma OtherSpaces(g: Global, g': Global, s: nat, id: Id)
    requires Touch(g, g', s, id)
    ensures |g'.nodes| == |g.nodes| && g'.f == g.f && g'.n == g.n
    ensures forall r :: 0 <= r < |g.nodes| && r != s ==> Sp(g', r) == Sp(g, r)
  {
  }

  lemma GeDepsTrans(a: seq<int>, b: seq<int>, c: seq<int>)
    ensures GeDeps(a, b) && GeDeps(b, c) ==> GeDeps(a, c)
  {
  }

  lemma RepliesKept(g: Global, g': Global, id: Id)
    requires RepliesOk(g, id) && Asked(g.sent, id) <= Asked(g'.sent, id)
    requires forall p :: p in g'.sent && IsReply(p, id) ==> p in g.sent
    ensures RepliesOk(g', id)
  {
  }

  lemma PendingKept(g: Global, g': Global, s: nat, id: Id)
    requires PendingOk(g, id) && |g'.nodes| == |g.nodes|
    requires forall p :: p in g'.net && IsPreAccept(p, id) ==> p in g.net
    requires forall p :: p in g'.sent && IsReply(p, id) ==> p in g.sent
    requires s < |g.nodes| && id in Sp(g, s)
    requires forall r :: 0 <= r < |g.nodes| && r != s ==> Sp(g', r) == Sp(g, r)
    ensures PendingOk(g', id)
  {
  }

  lemma AcceptsKept(g: Global, g': Global, id: Id)
    requires AcceptsOk(g, id) && forall p :: Delivered(g, p) ==> Delivered(g', p)
    requires forall p :: p in g'.sent && p.msg.AcceptReply? && p.msg.id == id ==> p in g.sent
    ensures AcceptsOk(g', id)
  {
    forall p | p in g'.sent && p.msg.AcceptReply? && p.msg.id == id ensures AcceptArrived(g', id, p.src) {
      assert AcceptArrived(g, id, p.src);
      var q :| q in g.sent && q !in g.net && q.msg.Accept? && q.msg.id == id && q.dst == p.src;
      assert Delivered(g, q);
    }
  }

  lemma OneMoreReply(g: Global, g': Global, p: Packet, out: set<Packet>)
    requires IsReply(p, p.msg.id) && p in g.net && g.net <= g.sent && RepliesOk(g, p.msg.id)
    requires forall q :: q in out ==> !IsReply(q, p.msg.id) && q !in g.sent
    requires g'.net == g.net - {p} + out && g'.sent == g.sent + out
    ensures |Counted(g', p.msg.id)| == |Counted(g, p.msg.id)| + 1
  {
    assert Counted(g', p.msg.id) == Counted(g, p.msg.id) + {p.src};
    assert p.src !in Counted(g, p.msg.id);
  }

  lemma ReplyRound(g: Global, g': Global, p: Packet, out: set<Packet>)
    requires Touch(g, g', p.dst, p.msg.id) && Started(g, p.msg.id) && RoundOk(g, p.msg.id) && Started(g', p.msg.id)
    requires IsReply(p, p.msg.id) && p in g.net && g.net <= g.sent && p.dst == p.msg.id.replica
    requires Open(Lb(g, p.msg.id)) && (Open(Lb(g', p.msg.id)) || Fixed(Lb(g', p.msg.id)))
    requires forall q :: q in out ==> q.msg.id == p.msg.id && (q.msg.Accept? || q.msg.Commit?) && q !in g.sent
    requires g'.net == g.net - {p} + out && g'.sent == g.sent + out
    requires var lb, lb' := Lb(g, p.msg.id), Lb(g', p.msg.id);
      && lb'.preAcceptOKs == lb.preAcceptOKs + 1 && (Fixed(lb') <==> lb'.preAcceptOKs >= FastQuorumSize(g.f) - 1)
      && GeDeps(lb'.deps, p.msg.deps) && (lb.preAcceptOKs > 0 ==> GeDeps(lb'.deps, lb.deps))
    ensures RoundOk(g', p.msg.id)
  {
    hide Touch, RepliesOk, PendingOk, AcceptsOk, GeDeps;
    var id := p.msg.id;
    OtherSpaces(g, g', p.dst, id);
    assert Asked(g'.sent, id) == Asked(g.sent, id);
    RepliesKept(g, g', id);
    PendingKept(g, g', p.dst, id);
    AcceptsKept(g, g', id);
    OneMoreReply(g, g', p, out);
    assert Merged(g', id) by {
      forall q | q in g.sent && q !in g.net && IsReply(q, id) ensures GeDeps(Lb(g', id).deps, q.msg.deps) {
        assert q.src in Counted(g, id);
        GeDepsTrans(Lb(g', id).deps, Lb(g, id).deps, q.msg.deps);
      }
    }
  }

  // ---------------------------------------------------------------- after the decision

  /** The Accepts of an instance to one peer are one packet, so a peer answers it once. */
  lemma NotAnsweredYet(g: Global, p: Packet)
    requires Basic(g) && Rounds(g) && p in g.net && p.msg.Accept?
    ensures Started(g, p.msg.id) && RoundOk(g, p.msg.id) && Fixed(Lb(g, p.msg.id)) && p.dst != p.msg.id.replica
    ensures forall q :: q in g.sent && q.msg.AcceptReply? && q.msg.id == p.msg.id ==> q.src != p.dst
  {
    hide EntryOk, LeaderOk, Local;
    assert PacketOk(g, p);
    forall q | q in g.sent && q.msg.AcceptReply? && q.msg.id == p.msg.id ensures q.src != p.dst {
      assert AcceptArrived(g, p.msg.id, q.src);
      var a :| a in g.sent && a !in g.net && a.msg.Accept? && a.msg.id == p.msg.id && a.dst == q.src;
      assert PacketOk(g, a);
    }
  }

  /** A message that arrives after the decision neither is nor causes a PreAccept or a reply to one. */
  lemma LateRound(g: Global, g': Global, p: Packet, out: set<Packet>)
    requires Basic(g) && Started(g, p.msg.id) && RoundOk(g, p.msg.id) && Fixed(Lb(g, p.msg.id))
    requires Touch(g, g', p.dst, p.msg.id) && Evolves(g, g')
    requires p in g.net && !p.msg.PreAccept? && !p.msg.PreAcceptReply?
    requires forall q :: q in out ==> q.msg.id == p.msg.id && !q.msg.PreAccept? && !q.msg.PreAcceptReply? && q !in g.sent
    requires forall q :: q in out && q.msg.AcceptReply? ==> p.msg.Accept? && q.src == p.dst
    requires g'.net == g.net - {p} + out && g'.sent == g.sent + out
    ensures Started(g', p.msg.id) && RoundOk(g', p.msg.id)
    ensures forall x :: x != p.msg.id ==> SameTraffic(g, g', x)
  {
    hide Touch, Local, EntryOk, LeaderOk, PacketOk, AcceptsOk;
    var id := p.msg.id;
    DecidedMeansAllReplied(g, id);
    OtherSpaces(g, g', p.dst, id);
    assert g.net <= g.sent;
    assert Asked(g'.sent, id) == Asked(g.sent, id);
    assert Counted(g', id) == Counted(g, id);
    RepliesKept(g, g', id);
    AnsweredAccepts(g, g', p, out);
  }

  lemma AnsweredAccepts(g: Global, g': Global, p: Packet, out: set<Packet>)
    requires AcceptsOk(g, p.msg.id) && p in g.net && g.net <= g.sent
    requires forall q :: q in out ==> q !in g.sent
    requires forall q :: q in out && q.msg.AcceptReply? ==> p.msg.Accept? && q.src == p.dst
    requires g'.net == g.net - {p} + out && g'.sent == g.sent + out
    ensures AcceptsOk(g', p.msg.id)
  {
    forall q | q in g'.sent && q.msg.AcceptReply? && q.msg.id == p.msg.id ensures AcceptArrived(g', p.msg.id, q.src) {
      if q in g.sent {
        assert AcceptArrived(g, p.msg.id, q.src);
      } else {
        assert p in g'.sent && p !in g'.net;
      }
    }
  }

  lemma RoundsAccept(g: Global, g': Global, p: Packet, now: int, targets: seq<nat>)
    requires Basic(g) && Rounds(g) && DeliverStep(g, g', p, now, targets) && p.msg.Accept?
    ensures Rounds(g') && Basic(g') && Evolves(g, g') && Touch(g, g', p.dst, p.msg.id)
  {
    hide Evolves, LeaderOk, EntryOk, Touch, Leaders, Entries, ConflictsKnown, RoundOk, Rounds, Notice, Lookup;
    NotAnsweredYet(g, p);
    BasicAccept(g, g', p, now, targets);
    LateRound(g, g', p, SetOf(HandleAccept(g.nodes[p.dst].rs, p.msg, now).out));
    TouchRounds(g, g', p.dst, p.msg.id);
  }

  /** A Commit is sent after the decision. */
  lemma CommitIsLate(g: Global, p: Packet)
    requires Basic(g) && Rounds(g) && p in g.net && p.msg.Commit?
    ensures Started(g, p.msg.id) && RoundOk(g, p.msg.id) && Fixed(Lb(g, p.msg.id))
  {
    hide EntryOk, LeaderOk, Local;
    assert PacketOk(g, p);
  }

  lemma RoundsCommit(g: Global, g': Global, p: Packet, now: int, targets: seq<nat>)
    requires Basic(g) && Rounds(g) && DeliverStep(g, g', p, now, targets) && p.msg.Commit?
    ensures Rounds(g') && Basic(g') && Evolves(g, g') && Touch(g, g', p.dst, p.msg.id)
  {
    hide Evolves, LeaderOk, EntryOk, Touch, Leaders, Entries, ConflictsKnown, RoundOk, Rounds, Notice, Lookup,
      UpdateConflicts, UpdateCommitted;
    CommitIsLate(g, p);
    BasicCommit(g, g', p, now, targets);
    LateRound(g, g', p, SetOf(HandleCommit(g.nodes[p.dst].rs, p.msg, now).out));
    TouchRounds(g, g', p.dst, p.msg.id);
  }

  lemma AcceptReplyIsLate(g: Global, p: Packet)
    requires Basic(g) && Rounds(g) && p in g.net && p.msg.AcceptReply?
    ensures Started(g, p.msg.id) && RoundOk(g, p.msg.id) && Fixed(Lb(g, p.msg.id))
  {
    hide EntryOk, LeaderOk, Local;
    assert PacketOk(g, p);
    assert AcceptArrived(g, p.msg.id, p.src);
    var a :| a in g.sent && a !in g.net && a.msg.Accept? && a.msg.id == p.msg.id && a.dst == p.src;
    assert PacketOk(g, a);
  }

  lemma RoundsAcceptReply(g: Global, g': Global, p: Packet, now: int, targets: seq<nat>)
    requires Basic(g) && Rounds(g) && DeliverStep(g, g', p, now, targets) && p.msg.AcceptReply?
    ensures Rounds(g') && Basic(g') && Evolves(g, g') && Touch(g, g', p.dst, p.msg.id)
  {
    hide Evolves, LeaderOk, EntryOk, Touch, Leaders, Entries, ConflictsKnown, RoundOk, Rounds, HandleAcceptReply;
    AcceptReplyIsLate(g, p);
    BasicAcceptReply(g, g', p, now, targets);
    CommitsAbout(g.nodes[p.dst].rs, p.msg, targets);
    LateRound(g, g', p, SetOf(HandleAcceptReply(g.nodes[p.dst].rs, p.msg, targets).out));
    TouchRounds(g, g', p.dst, p.msg.id);
  }

  lemma CommitsAbout(st: RState, m: Msg, targets: seq<nat>)
    requires CanHandle(st, m) && m.AcceptReply?
    ensures forall q :: q in SetOf(HandleAcceptReply(st, m, targets).out) ==> q.msg.id == m.id && q.msg.Commit?
  {
  }

  // ---------------------------------------------------------------- execution

  lemma RoundsExecute(g: Global, g': Global, s: nat, space: Space, ex: Execution)
    requires Basic(g) && Rounds(g) && ExecuteStep(g, g', s, space, ex)
    ensures Rounds(g') && Basic(g') && Evolves(g, g')
  {
    hide PacketOk, EntryOk, LeaderOk, ExecutionOk, LbLe, Local, Indexed, Evolves, RoundOk;
    BasicExecute(g, g', s, space, ex);
    ExecuteKeeps(g, g', s, space, ex);
    forall id | Started(g', id) ensures RoundOk(g', id) {
      RoundOther(g, g', id);
    }
  }
}
