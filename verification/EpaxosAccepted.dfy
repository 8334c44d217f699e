/** The Accept phase of EPaxos: whoever answered an Accept stores what the leader decided, so that a slow commit
    rests on a majority of replicas with the same Seq and Deps. */
module EpaxosAccepted {
  import opened State
  import opened Sequences
  import opened Sets
  import opened Traces
  import opened DepGraph
  import opened Options
  import opened EpaxosTypes
  import opened EpaxosSpec
  import opened EpaxosProtocol
  import opened EpaxosBasic
  import opened EpaxosRounds
  import opened EpaxosVotes
  import opened EpaxosExecution
  import opened EpaxosSafety
  import opened EpaxosTheorems
  import opened EpaxosQuiet
  import opened EpaxosPaths
  import opened SccSearch

  /** Replica a holds the Seq and the Deps that the leader of id has decided. */
  ghost predicate Holds(g: Global, a: nat, id: Id)
    requires Started(g, id)
  {
    a < |g.nodes| && id in Sp(g, a) && Sp(g, a)[id].seqno == Lb(g, id).seqno && Sp(g, a)[id].deps == Lb(g, id).deps
  }

  /** Everyone whom an Accept has reached holds the decision. */
  ghost predicate Stored(g: Global, id: Id)
    requires Started(g, id)
  {
    forall p :: p in g.sent && p !in g.net && IsAccept(p, id) ==> Holds(g, p.dst, id)
  }

  ghost predicate AllStored(g: Global) {
    forall id :: Started(g, id) ==> Stored(g, id)
  }

  /** Entries of other instances stay. */
  lemma StoredOther(g: Global, g': Global, s: nat, id: Id, x: Id)
    requires Touch(g, g', s, id) && x != id && Started(g, x) && Started(g', x) && Lb(g', x) == Lb(g, x)
    requires SameTraffic(g, g', x) && Stored(g, x)
    ensures Stored(g', x)
  {
    forall p | p in g'.sent && p !in g'.net && IsAccept(p, x) ensures Holds(g', p.dst, x) {
      assert p in g.sent && p !in g.net;
      assert Holds(g, p.dst, x);
    }
  }

  lemma TouchStored(g: Global, g': Global, s: nat, id: Id)
    requires Basic(g) && Basic(g') && AllStored(g) && Touch(g, g', s, id)
    requires forall x :: x != id ==> SameTraffic(g, g', x)
    requires Started(g', id) ==> Stored(g', id)
    ensures AllStored(g')
  {
    hide Basic, Stored, SameTraffic;
    forall x | Started(g', x) ensures Stored(g', x) {
      if x != id {
        OtherStays(g, g', s, id, x);
        StoredOther(g, g', s, id, x);
      }
    }
  }

  // ---------------------------------------------------------------- steps

  /** Before the decision no Accept has arrived. */
  lemma NothingStored(g: Global, id: Id)
    requires Started(g, id) && forall p :: p in g.sent && p.msg.id == id && p.msg.Accept? ==> p in g.net
    ensures Stored(g, id)
  {
  }

  lemma StoredPropose(g: Global, g': Global, s: nat, c: Command, waits: bool, now: int, targets: seq<nat>)
    requires Inv(g) && AllStored(g) && ProposeStep(g, g', s, c, waits, now, targets)
    ensures AllStored(g')
  {
    ProposeFacts(g, g', s, c, waits, now, targets);
    var rs, id := g.nodes[s].rs, NextId(g.nodes[s].rs);
    var m := PreAccept(id, s, s, [c], -1, g'.nodes[s].rs.space[id].lb.value.originalDeps);
    Unknown(g, id);
    hide *;
    BasicPropose(g, g', s, c, waits, now, targets);
    OtherSpaces(g, g', s, id);
    NewLeaderStarted(g', s, id, c);
    AskedAre(g, g', rs, FastQuorumSize(g.f) - 1, targets, m);
    NothingStored(g', id);
    TouchStored(g, g', s, id);
  }

  /** Delivering p and answering with out. */
  lemma StoredExchange(g: Global, g': Global, p: Packet, out: set<Packet>)
    requires Exchange(g, g', p, out) && Touch(g, g', p.dst, p.msg.id)
    requires Started(g, p.msg.id) && Started(g', p.msg.id) && Stored(g, p.msg.id)
    requires Lb(g', p.msg.id).seqno == Lb(g, p.msg.id).seqno && Lb(g', p.msg.id).deps == Lb(g, p.msg.id).deps
    requires Holds(g, p.dst, p.msg.id) || p.msg.Accept? ==> Holds(g', p.dst, p.msg.id)
    ensures Stored(g', p.msg.id)
  {
    var id := p.msg.id;
    forall q | q in g'.sent && q !in g'.net && IsAccept(q, id) ensures Holds(g', q.dst, id) {
      if q != p {
        assert q in g.sent && q !in g.net;
        assert Holds(g, q.dst, id);
      }
    }
  }

  /** A replica that knows a decided instance holds the decision, and so does one that handles an Accept. */
  lemma AcceptIsHeld(g: Global, g': Global, p: Packet, now: int, targets: seq<nat>)
    requires Inv(g) && DeliverStep(g, g', p, now, targets) && p.msg.Accept?
    ensures Started(g, p.msg.id) && Started(g', p.msg.id) && p.msg.id.replica != p.dst && Holds(g', p.dst, p.msg.id)
  {
    hide Rounds, Votes, Executions, Leaders, Entries, Local, RoundOk, Indexed;
    LeaderAt(g, p);
    NotAnsweredYet(g, p);
    var rs := g.nodes[p.dst].rs;
    assert p.msg.id in Sp(g, p.dst) ==> EntryOk(g, p.dst, p.msg.id);
    assert g'.nodes[p.dst].rs == HandleAccept(rs, p.msg, now).st;
  }

  lemma CommitIsHeld(g: Global, g': Global, p: Packet)
    requires Basic(g') && Started(g', p.msg.id) && CommittedAt(g', p.dst, p.msg.id)
    ensures Holds(g', p.dst, p.msg.id)
  {
    hide Leaders, Packets, Local, Indexed;
    assert EntryOk(g', p.dst, p.msg.id);
  }

  /** A PreAccept finds a replica without the instance. */
  lemma PreAcceptFindsNothing(g: Global, p: Packet)
    requires Basic(g) && Rounds(g) && p in g.net && p.msg.PreAccept?
    ensures Started(g, p.msg.id) && !Holds(g, p.dst, p.msg.id)
  {
    hide Basic, Rounds, RoundOk;
    PendingAt(g, p);
  }

  lemma StoredPeer(g: Global, g': Global, p: Packet, out: set<Packet>)
    requires Basic(g) && Basic(g') && AllStored(g) && Touch(g, g', p.dst, p.msg.id) && Exchange(g, g', p, out)
    requires Started(g, p.msg.id) && Started(g', p.msg.id) && p.msg.id.replica != p.dst
    requires Holds(g, p.dst, p.msg.id) || p.msg.Accept? ==> Holds(g', p.dst, p.msg.id)
    ensures AllStored(g')
  {
    hide *;
    LeaderUntouched(g, g', p.dst, p.msg.id);
    StoredAt(g, p.msg.id);
    StoredExchange(g, g', p, out);
    ExchangeTraffic(g, g', p, out);
    TouchStored(g, g', p.dst, p.msg.id);
  }

  lemma StoredAt(g: Global, id: Id)
    requires AllStored(g) && Started(g, id)
    ensures Stored(g, id)
  {
  }

  lemma StoredDeliver(g: Global, g': Global, p: Packet, now: int, targets: seq<nat>)
    requires Inv(g) && AllStored(g) && DeliverStep(g, g', p, now, targets)
    ensures AllStored(g')
  {
    hide *;
    InvParts(g);
    match p.msg {
      case PreAccept(_, _, _, _, _, _) =>
        PreAcceptStep(g, g', p, now, targets);
        RoundsPreAccept(g, g', p, now, targets);
        var q := PreAcceptAnswer(g, g', p, now, targets);
        PreAcceptFindsNothing(g, p);
        StartedStill(g, g', p.msg.id);
        StoredPeer(g, g', p, {q});
      case Accept(_, _, _, _, _) =>
        RoundsAccept(g, g', p, now, targets);
        var q := AcceptAnswer(g, g', p, now, targets);
        AcceptIsHeld(g, g', p, now, targets);
        StoredPeer(g, g', p, {q});
      case Commit(_, _, _, _, _, _) =>
        RoundsCommit(g, g', p, now, targets);
        CommitArrives(g, g', p, now, targets);
        StartedStill(g, g', p.msg.id);
        CommitIsHeld(g, g', p);
        StoredPeer(g, g', p, {});
      case PreAcceptReply(_, _, _, _, _, _, _) =>
        StoredReply(g, g', p, now, targets);
      case AcceptReply(_, _) =>
        StoredAcceptReply(g, g', p, now, targets);
    }
  }

  lemma StoredReply(g: Global, g': Global, p: Packet, now: int, targets: seq<nat>)
    requires Inv(g) && AllStored(g) && DeliverStep(g, g', p, now, targets) && p.msg.PreAcceptReply?
    ensures AllStored(g')
  {
    hide *;
    var out := ReplyArrives(g, g', p, now, targets);
    NothingLate(g, p.msg.id);
    NewAcceptsInFlight(g, g', p, out);
    NothingStored(g', p.msg.id);
    ExchangeTraffic(g, g', p, out);
    TouchStored(g, g', p.dst, p.msg.id);
  }

  lemma NewAcceptsInFlight(g: Global, g': Global, p: Packet, out: set<Packet>)
    requires Exchange(g, g', p, out) && p.msg.PreAcceptReply?
    requires forall q :: q in g.sent && q.msg.id == p.msg.id ==> !q.msg.Accept?
    ensures forall q :: q in g'.sent && q.msg.id == p.msg.id && q.msg.Accept? ==> q in g'.net
  {
  }

  lemma StoredAcceptReply(g: Global, g': Global, p: Packet, now: int, targets: seq<nat>)
    requires Inv(g) && AllStored(g) && DeliverStep(g, g', p, now, targets) && p.msg.AcceptReply?
    ensures AllStored(g')
  {
    hide *;
    AcceptReplyLb(g, g', p, now, targets);
    var out := AcceptReplyArrives(g, g', p, now, targets);
    StoredAt(g, p.msg.id);
    LeaderHolds(g, p.msg.id);
    LeaderHolds(g', p.msg.id);
    StillFixed(g, g', p.msg.id, g.n);
    StoredExchange(g, g', p, out);
    ExchangeTraffic(g, g', p, out);
    TouchStored(g, g', p.dst, p.msg.id);
  }

  lemma StillFixed(g: Global, g': Global, id: Id, n: nat)
    requires Started(g, id) && Started(g', id) && Fixed(Lb(g, id))
    requires var lb, lb' := Lb(g, id), Lb(g', id);
      if lb.status == COMMITTED then lb' == lb
      else lb' == lb.(acceptOKs := lb.acceptOKs + 1, status := if lb.acceptOKs + 2 > n / 2 then COMMITTED else ACCEPTED)
    ensures Fixed(Lb(g', id)) && Lb(g', id).seqno == Lb(g, id).seqno && Lb(g', id).deps == Lb(g, id).deps
  {
  }

  lemma LeaderHolds(g: Global, id: Id)
    requires Basic(g) && Started(g, id)
    ensures Fixed(Lb(g, id)) ==> Holds(g, id.replica, id)
    ensures id.replica < |g.nodes|
  {
    hide Entries, Packets, Local;
  }

  lemma StoredExecute(g: Global, g': Global, s: nat, space: Space, ex: Execution)
    requires Inv(g) && AllStored(g) && ExecuteStep(g, g', s, space, ex)
    ensures AllStored(g')
  {
    hide Rounds, Votes, Executions, Leaders, Entries, Packets, Local, ExecutionOk;
    ExecuteKeeps(g, g', s, space, ex);
    forall id | Started(g', id) ensures Stored(g', id) {
      assert Stored(g, id);
      forall p | p in g'.sent && p !in g'.net && IsAccept(p, id) ensures Holds(g', p.dst, id) {
        assert Holds(g, p.dst, id);
        assert SameInstance(Sp(g, p.dst)[id], Sp(g', p.dst)[id]);
      }
    }
  }

  lemma {:induction false} RunStored(run: seq<Global>, steps: seq<Step>, i: nat)
    requires IsRun(run, steps) && i < |run|
    ensures Inv(run[i]) && AllStored(run[i])
  {
    hide Inv, NextStep, AllStored;
    RunInv(run, steps, i);
    if i == 0 {
      NoneStored(run[0]);
    } else {
      RunStored(run, steps, i - 1);
      StepStored(run[i - 1], run[i], steps[i - 1]);
    }
  }

  lemma NoneStored(g: Global)
    requires Init(g)
    ensures AllStored(g)
  {
    assert forall id :: !Started(g, id);
  }

  lemma StepStored(g: Global, g': Global, step: Step)
    requires Inv(g) && AllStored(g) && NextStep(g, g', step)
    ensures AllStored(g')
  {
    hide Inv, AllStored, DeliverStep, ProposeStep, ExecuteStep;
    match step {
      case Proposing(s, c, waits, now, targets) => StoredPropose(g, g', s, c, waits, now, targets);
      case Delivering(p, now, targets) => StoredDeliver(g, g', p, now, targets);
      case Executing(s, space, ex) => StoredExecute(g, g', s, space, ex);
    }
  }

  // ---------------------------------------------------------------- the theorem

  /** In every run: when a leader has committed by way of AcceptReplies, a majority of the replicas hold the Seq
      and the Deps that it decided. */
  lemma SlowCommitsRestOnAMajority(run: seq<Global>, steps: seq<Step>, i: nat, id: Id) returns (holders: set<nat>)
    requires IsRun(run, steps) && i < |run| && Started(run[i], id)
    requires Lb(run[i], id).status == COMMITTED && Lb(run[i], id).acceptOKs > 0
    ensures run[i].n == 2 * run[i].f + 1 && |holders| >= run[i].f + 1
    ensures forall a :: a in holders ==> Holds(run[i], a, id)
  {
    hide *;
    var g := run[i];
    RunStored(run, steps, i);
    PathTaken(run, steps, i, id);
    InvParts(g);
    PositiveF(g);
    StoredAt(g, id);
    CommittedIsFixed(Lb(g, id));
    LeaderHolds(g, id);
    holders := AcceptCounted(g, id) + {id.replica};
    AcceptersHold(g, id);
  }

  lemma CommittedIsFixed(lb: LeaderBookkeeping)
    requires lb.status == COMMITTED
    ensures Fixed(lb)
  {
  }

  lemma AcceptersHold(g: Global, id: Id)
    requires Basic(g) && Rounds(g) && Started(g, id) && Stored(g, id)
    ensures id.replica !in AcceptCounted(g, id)
    ensures forall a :: a in AcceptCounted(g, id) ==> Holds(g, a, id)
  {
    hide Leaders, Entries, Local, RepliesOk, PendingOk, TallyCounts, Merged;
    assert RoundOk(g, id);
    forall a | a in AcceptCounted(g, id) ensures a != id.replica && Holds(g, a, id) {
      var p :| p in g.sent && p !in g.net && IsAcceptReply(p, id) && p.src == a;
      assert PacketOk(g, p);
      assert AcceptArrived(g, id, a);
      var q :| q in g.sent && q !in g.net && q.msg.Accept? && q.msg.id == id && q.dst == a;
      assert IsAccept(q, id);
    }
  }
}
