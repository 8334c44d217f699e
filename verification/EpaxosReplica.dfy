/** One EPaxos replica: its fields and message handlers, statement by statement (epaxos/epaxos.go,
    without the recovery section). Each handler computes the function of EpaxosSpec that the protocol
    proofs reason about. */
module EpaxosReplica {
  import opened State
  import opened Sequences
  import opened Traces
  import opened DepGraph
  import opened Options
  import opened EpaxosTypes
  import opened EpaxosSpec

  class Replica {
    const Id: nat
    const N: nat
    const F: nat
    const Thrifty: bool
    /** Clients are answered after execution; replica/replica.go:105 sets it. */
    const Dreply: bool
    const State: KVState
    var InstanceSpace: Space
    var crtInstance: seq<int>
    var CommittedUpTo: seq<int>
    var ExecedUpTo: seq<int>
    var conflicts: seq<map<Key, InstPair>>
    var maxSeqPerKey: map<Key, int>
    var maxSeq: int
    var maxRecvBallot: int
    var PreferredPeerOrder: seq<nat>
    var Alive: seq<bool>
    /** Every message sent so far. */
    var sent: seq<Packet>
    var clientReplies: seq<ClientReply>

    constructor (id: nat, f: nat, st: KVState)
      requires id < 2 * f + 1
      ensures Abs() == RState(id, 2 * f + 1, f, map[], NilDeps(2 * f + 1), NilDeps(2 * f + 1),
                              seq(2 * f + 1, _ => map[]), map[], 0, -1)
      ensures Valid() && sent == [] && clientReplies == [] && ExecedUpTo == NilDeps(N)
      ensures Dreply && State == st
    {
      Id, N, F, Thrifty, Dreply, State := id, 2 * f + 1, f, true, true, st;
      InstanceSpace := map[];
      crtInstance, CommittedUpTo, ExecedUpTo := NilDeps(2 * f + 1), NilDeps(2 * f + 1), NilDeps(2 * f + 1);
      conflicts := seq(2 * f + 1, _ => map[]);
      maxSeqPerKey := map[];
      maxSeq, maxRecvBallot := 0, -1;
      PreferredPeerOrder := seq(2 * f + 1, i requires 0 <= i < 2 * f + 1 => (id + 1 + i) % (2 * f + 1));
      Alive := seq(2 * f + 1, _ => true);
      sent, clientReplies := [], [];
      new;
      PeersInOrder(Id, N);
    }

    function Abs(): RState
      reads this
    {
      RState(Id, N, F, InstanceSpace, crtInstance, CommittedUpTo, conflicts, maxSeqPerKey, maxSeq, maxRecvBallot)
    }

    ghost predicate PeersOk()
      reads this`PreferredPeerOrder, this`Alive
    {
      N == 2 * F + 1 && Thrifty && Peers(PreferredPeerOrder, Id, N) && |Alive| == N
    }

    ghost predicate Valid()
      reads this
    {
      Local(Abs()) && PeersOk()
    }

    ghost predicate AllAlive()
      reads this`Alive
    {
      forall i :: 0 <= i < |Alive| ==> Alive[i]
    }

    // -------------------------------------------------------------- sending

    method SendMsg(peer: nat, m: Msg)
      modifies this`sent
      ensures sent == old(sent) + [Packet(Id, peer, m)]
    {
      sent := sent + [Packet(Id, peer, m)];
    }

    /** The loop of bcastPreAccept and bcastAccept: at most n of the peers that are alive. */
    method Bcast(m: Msg, n: int) returns (ghost targets: seq<nat>)
      requires PeersOk() && (n >= 1 || N == 1)
      modifies this`sent
      ensures TargetsOk(Abs(), n, targets) || (N == 1 && targets == [])
      ensures sent == old(sent) + Broadcast(Id, targets, m)
      ensures AllAlive() ==> |targets| == if N > 1 && n < N - 1 then n else N - 1
    {
      targets := [];
      var count := 0;
      for q := 0 to N - 1
        invariant |targets| == count <= q && (q > 0 ==> N > 1) && (count < n || N == 1)
        invariant AllAlive() ==> count == q
        invariant forall i :: 0 <= i < count ==> targets[i] in PreferredPeerOrder[..q]
        invariant TargetsOk(Abs(), q, targets)
        invariant sent == old(sent) + Broadcast(Id, targets, m)
      {
        if !Alive[PreferredPeerOrder[q]] {
          continue;
        }
        PeerAt(PreferredPeerOrder, Id, N, q);
        SendMsg(PreferredPeerOrder[q], m);
        BroadcastMore(Id, targets, PreferredPeerOrder[q], m);
        targets := targets + [PreferredPeerOrder[q]];
        count := count + 1;
        if count >= n {
          break;
        }
      }
    }

    /** The loop of bcastCommit: all peers that are alive. */
    method BcastCommit(m: Msg) returns (ghost targets: seq<nat>)
      requires PeersOk()
      modifies this`sent
      ensures TargetsOk(Abs(), N - 1, targets)
      ensures sent == old(sent) + Broadcast(Id, targets, m)
      ensures AllAlive() ==> |targets| == N - 1
    {
      targets := [];
      for q := 0 to N - 1
        invariant forall i :: 0 <= i < |targets| ==> targets[i] in PreferredPeerOrder[..q]
        invariant TargetsOk(Abs(), q, targets) && (AllAlive() ==> |targets| == q)
        invariant sent == old(sent) + Broadcast(Id, targets, m)
      {
        if !Alive[PreferredPeerOrder[q]] {
          continue;
        }
        PeerAt(PreferredPeerOrder, Id, N, q);
        SendMsg(PreferredPeerOrder[q], m);
        BroadcastMore(Id, targets, PreferredPeerOrder[q], m);
        targets := targets + [PreferredPeerOrder[q]];
      }
    }

    // -------------------------------------------------------------- conflict index and attributes

    method UpdateCommitted(q: nat)
      requires q < |CommittedUpTo| && CommittedUpTo[q] >= -1
      modifies this`CommittedUpTo
      ensures Abs() == EpaxosSpec.UpdateCommitted(old(Abs()), q)
    {
      ghost var all := CommittedFrom(InstanceSpace, q, CommittedUpTo[q]);
      ghost var st := Abs();
      while DepGraph.Id(q, CommittedUpTo[q] + 1) in InstanceSpace
            && (InstanceSpace[DepGraph.Id(q, CommittedUpTo[q] + 1)].status == COMMITTED
                || InstanceSpace[DepGraph.Id(q, CommittedUpTo[q] + 1)].status == EXECUTED)
        invariant q < |CommittedUpTo| && CommittedUpTo[q] >= -1
        invariant CommittedUpTo == st.committedUpTo[q := CommittedUpTo[q]]
        invariant CommittedFrom(InstanceSpace, q, CommittedUpTo[q]) == all
        decreases Above(InstanceSpace, q, CommittedUpTo[q])
      {
        assert DepGraph.Id(q, CommittedUpTo[q] + 1) in Above(InstanceSpace, q, CommittedUpTo[q]);
        assert DepGraph.Id(q, CommittedUpTo[q] + 1) !in Above(InstanceSpace, q, CommittedUpTo[q] + 1);
        CommittedUpTo := CommittedUpTo[q := CommittedUpTo[q] + 1];
      }
    }

    /** The part of updateConflicts that records one command in a column. */
    method RecordConflict(q: nat, c: Command, instance: int)
      requires q < |conflicts|
      modifies this`conflicts
      ensures conflicts == old(conflicts)[q := RecordCommand(old(conflicts)[q], c, instance)]
    {
      var column := conflicts[q];
      if c.k in column {
        if column[c.k].last < instance {
          column := column[c.k := column[c.k].(last := instance)];
        }
        if column[c.k].lastWrite < instance && c.op != GET {
          column := column[c.k := column[c.k].(lastWrite := instance)];
        }
      } else {
        column := column[c.k := InstPair(instance, -1)];
        if c.op != GET {
          column := column[c.k := column[c.k].(lastWrite := instance)];
        }
      }
      assert column == RecordCommand(conflicts[q], c, instance);
      conflicts := conflicts[q := column];
    }

    method UpdateConflicts(cmds: seq<Command>, id: Id, seqno: int)
      requires id.replica < |conflicts|
      modifies this`conflicts, this`maxSeqPerKey
      ensures Abs() == EpaxosSpec.UpdateConflicts(old(Abs()), cmds, id, seqno)
    {
      ghost var st := Abs();
      var q, instance := id.replica, id.instance;
      for i := 0 to |cmds|
        invariant |conflicts| == |st.conflicts|
        invariant conflicts == st.conflicts[q := RecordCommands(st.conflicts[q], cmds[..i], instance)]
        invariant maxSeqPerKey == RecordSeqs(st.maxSeqPerKey, cmds[..i], seqno)
      {
        RecordMore(st.conflicts[q], st.maxSeqPerKey, cmds, i, instance, seqno);
        RecordConflict(q, cmds[i], instance);
        var k := cmds[i].k;
        if k in maxSeqPerKey {
          if maxSeqPerKey[k] < seqno {
            maxSeqPerKey := maxSeqPerKey[k := seqno];
          }
        } else {
          maxSeqPerKey := maxSeqPerKey[k := seqno];
        }
      }
      assert cmds[..|cmds|] == cmds;
    }

    method UpdateAttributes(cmds: seq<Command>, seq0: int, deps0: seq<int>, replica: nat)
      returns (seqno: int, deps: seq<int>, changed: bool)
      requires ConflictsKnown(Abs()) && |deps0| == N
      requires forall i :: 0 <= i < |deps0| ==> -1 <= deps0[i]
      ensures EpaxosSpec.UpdateAttributes(Abs(), cmds, seq0, deps0, replica) == Attributes(seqno, deps, changed)
    {
      seqno, deps, changed := seq0, deps0, false;
      for q := 0 to N
        invariant |deps| == N
        invariant UpdateDeps(Abs(), cmds, seq0, deps0, replica, q) == Attributes(seqno, deps, changed)
      {
        if Id != replica && q == replica {
          continue;
        }
        ghost var before := deps[q];
        for i := 0 to |cmds|
          invariant |deps| == N && deps[q] == before
          invariant UpdateDeps(Abs(), cmds, seq0, deps0, replica, q) == Attributes(seqno, deps, changed)
          invariant FirstRaise(conflicts[q], cmds, before, 0) == FirstRaise(conflicts[q], cmds, before, i)
        {
          if cmds[i].k in conflicts[q] {
            var d := conflicts[q][cmds[i].k].lastWrite;
            if cmds[i].op != GET {
              d := conflicts[q][cmds[i].k].last;
            }
            if d > deps[q] {
              deps := deps[q := d];
              if seqno <= InstanceSpace[DepGraph.Id(q, d)].seqno {
                seqno := InstanceSpace[DepGraph.Id(q, d)].seqno + 1;
              }
              changed := true;
              break;
            }
          }
        }
      }
      ghost var a := Attributes(seqno, deps, changed);
      for i := 0 to |cmds|
        invariant RaiseSeq(maxSeqPerKey, cmds, a, i) == Attributes(seqno, deps, changed)
      {
        if cmds[i].k in maxSeqPerKey {
          if seqno <= maxSeqPerKey[cmds[i].k] {
            changed := true;
            seqno := maxSeqPerKey[cmds[i].k] + 1;
          }
        }
      }
    }

    method MergeAttributes(seq1: int, deps1: seq<int>, seq2: int, deps2: seq<int>)
      returns (seqno: int, deps: seq<int>, equal: bool)
      requires |deps1| == |deps2| == N
      ensures EpaxosSpec.MergeAttributes(Id, seq1, deps1, seq2, deps2) == Attributes(seqno, deps, !equal)
    {
      seqno, deps, equal := seq1, deps1, true;
      if seq1 != seq2 {
        equal := false;
        if seq2 > seq1 {
          seqno := seq2;
        }
      }
      for q := 0 to N
        invariant |deps| == N
        invariant forall p :: 0 <= p < q ==> deps[p] == MergeDeps(Id, deps1, deps2)[p]
        invariant forall p :: q <= p < N ==> deps[p] == deps1[p]
        invariant equal <==> seq1 == seq2 && forall p :: 0 <= p < q && p != Id ==> deps1[p] == deps2[p]
      {
        if q == Id {
          continue;
        }
        if deps[q] != deps2[q] {
          equal := false;
          if deps2[q] > deps[q] {
            deps := deps[q := deps2[q]];
          }
        }
      }
      assert deps == MergeDeps(Id, deps1, deps2);
    }

    // -------------------------------------------------------------- handlers

    /** now is the clock reading. */
    method HandlePropose(cmds: seq<Command>, proposals: bool, now: int) returns (ghost targets: seq<nat>)
      requires Valid() && F >= 1
      modifies this`InstanceSpace, this`crtInstance, this`conflicts, this`maxSeqPerKey, this`maxSeq, this`sent
      ensures TargetsOk(old(Abs()), FastQuorumSize(F) - 1, targets)
      ensures AllAlive() ==> |targets| == FastQuorumSize(F) - 1
      ensures var o := Propose(old(Abs()), cmds, proposals, now, targets);
        Abs() == o.st && sent == old(sent) + o.out
    {
      hide EpaxosSpec.StartPhase1, ConflictsKnown;
      crtInstance := crtInstance[Id := crtInstance[Id] + 1];
      CountedUp(old(Abs()));
      targets := StartPhase1(cmds, crtInstance[Id], Id, proposals, now);
    }

    method StartPhase1(cmds: seq<Command>, instance: nat, ballot: int, proposals: bool, now: int)
      returns (ghost targets: seq<nat>)
      requires Valid() && F >= 1
      modifies this`InstanceSpace, this`conflicts, this`maxSeqPerKey, this`maxSeq, this`sent
      ensures TargetsOk(old(Abs()), FastQuorumSize(F) - 1, targets)
      ensures AllAlive() ==> |targets| == FastQuorumSize(F) - 1
      ensures var o := EpaxosSpec.StartPhase1(old(Abs()), cmds, instance, ballot, proposals, now, targets);
        Abs() == o.st && sent == old(sent) + o.out
    {
      hide EpaxosSpec.UpdateAttributes, EpaxosSpec.UpdateConflicts;
      ghost var st := Abs();
      var deps := NilDeps(N);
      var seqno, changed;
      seqno, deps, changed := UpdateAttributes(cmds, 0, deps, Id);
      var comDeps := NilDeps(N);
      var lb := LeaderBookkeeping(proposals, -1, true, 0, 0, 0, deps, comDeps, ballot, cmds, PREACCEPTED, -1, deps);
      var id := DepGraph.Id(Id, instance);
      InstanceSpace := InstanceSpace[id :=
        Instance(Some(cmds), ballot, ballot, PREACCEPTED, seqno, deps, Some(lb), 0, 0, now)];
      UpdateConflicts(cmds, id, seqno);
      if seqno >= maxSeq {
        maxSeq := seqno;
      }
      targets := BcastPreAccept(id, lb);
    }

    method BcastPreAccept(id: Id, lb: LeaderBookkeeping) returns (ghost targets: seq<nat>)
      requires PeersOk() && F >= 1
      modifies this`sent
      ensures TargetsOk(Abs(), FastQuorumSize(F) - 1, targets)
      ensures AllAlive() ==> |targets| == FastQuorumSize(F) - 1
      ensures sent == old(sent)
        + Broadcast(Id, targets, PreAccept(id, Id, lb.lastTriedBallot, lb.cmds, lb.seqno, lb.deps))
    {
      targets := Bcast(PreAccept(id, Id, lb.lastTriedBallot, lb.cmds, lb.seqno, lb.deps),
                       if Thrifty then FastQuorumSize(F) - 1 else N - 1);
    }

    /** What every handler does with the header of a message about an instance of another replica. */
    method NoteMessage(id: Id, ballot: int, now: int)
      requires id.replica < |crtInstance|
      modifies this`InstanceSpace, this`crtInstance, this`maxRecvBallot
      ensures Abs() == Noted(old(Abs()), id, ballot, now)
    {
      if ballot > maxRecvBallot {
        maxRecvBallot := ballot;
      }
      if id.instance > crtInstance[id.replica] {
        crtInstance := crtInstance[id.replica := id.instance];
      }
      if id !in InstanceSpace {
        InstanceSpace := InstanceSpace[id := DefaultInstance(now)];
      }
    }

    method HandlePreAccept(m: Msg, now: int)
      requires Valid() && PreAcceptFits(Abs(), m)
      modifies this`InstanceSpace, this`crtInstance, this`conflicts, this`maxSeqPerKey, this`maxSeq,
        this`maxRecvBallot, this`sent
      ensures var o := EpaxosSpec.HandlePreAccept(old(Abs()), m, now);
        Abs() == o.st && sent == old(sent) + o.out
    {
      hide EpaxosSpec.RecordPreAccept, Local, Noted;
      PreAcceptUnfolds(Abs(), m, now);
      if m.seqno >= maxSeq {
        maxSeq := m.seqno + 1;
      }
      NoteMessage(m.id, m.ballot, now);
      if m.ballot < InstanceSpace[m.id].bal {
        return;
      }
      RecordPreAccept(m);
      var inst := InstanceSpace[m.id];
      SendMsg(m.leaderId, PreAcceptReply(m.id, inst.bal, inst.vbal, inst.seqno, inst.deps, CommittedUpTo, inst.status));
    }

    method RecordPreAccept(m: Msg)
      requires ConflictsKnown(Abs()) && PreAcceptFits(Abs(), m) && m.id in InstanceSpace
      modifies this`InstanceSpace, this`conflicts, this`maxSeqPerKey
      ensures Abs() == EpaxosSpec.RecordPreAccept(old(Abs()), m)
    {
      hide EpaxosSpec.UpdateAttributes, EpaxosSpec.UpdateConflicts, PairKnown;
      var id, inst := m.id, InstanceSpace[m.id];
      ghost var space0 := InstanceSpace;
      if Rank(inst.status) >= Rank(ACCEPTED) {
        InstanceSpace := InstanceSpace[id := inst.(bal := m.ballot)];
        if inst.cmds.None? {
          InstanceSpace := InstanceSpace[id := InstanceSpace[id].(cmds := Some(m.command))];
          assert InstanceSpace == space0[id := inst.(bal := m.ballot, cmds := Some(m.command))];
          UpdateConflicts(m.command, id, m.seqno);
        }
      } else {
        var seqno, deps, changed := UpdateAttributes(m.command, m.seqno, m.deps, id.replica);
        var status := PREACCEPTED_EQ;
        if changed {
          status := PREACCEPTED;
        }
        InstanceSpace := InstanceSpace[id := inst.(
          cmds := Some(m.command), seqno := seqno, deps := deps, bal := m.ballot, vbal := m.ballot, status := status)];
        UpdateConflicts(m.command, id, m.seqno);
      }
    }

    /** A nack is only counted: what the leader does about a majority of them is recovery. */
    method HandlePreAcceptReply(m: Msg) returns (ghost targets: seq<nat>)
      requires Valid() && F >= 1 && m.PreAcceptReply? && m.id.replica < N && LeaderReady(Abs(), m.id)
      requires |m.deps| == |m.committedDeps| == N
      modifies this`InstanceSpace, this`CommittedUpTo, this`maxRecvBallot, this`sent
      ensures TargetsOk(old(Abs()), N, targets)
      ensures AllAlive() && PreAccepted(m.status) ==> EnoughFor(old(Abs()), Abs(), m.id, targets)
      ensures var o := EpaxosSpec.HandlePreAcceptReply(old(Abs()), m, targets);
        Abs() == o.st && sent == old(sent) + o.out
    {
      hide EpaxosSpec.Tally, EpaxosSpec.Decide, ConflictsKnown;
      targets := [];
      var inst := InstanceSpace[m.id];
      var lb := inst.lb.value;
      if m.ballot > maxRecvBallot {
        maxRecvBallot := m.ballot;
      }
      if lb.lastTriedBallot > m.ballot {
        return;
      }
      if lb.lastTriedBallot < m.ballot {
        lb := lb.(nacks := lb.nacks + 1);
        InstanceSpace := InstanceSpace[m.id := inst.(lb := Some(lb))];
        return;
      }
      if lb.status != PREACCEPTED && lb.status != PREACCEPTED_EQ {
        return;
      }
      var allCommitted;
      lb, allCommitted := Tally(inst, lb, m);
      targets := Decide(m.id, lb, allCommitted);
    }

    /** The bookkeeping after one more reply: acceptances, merged attributes, known commits. */
    method Tally(inst: Instance, lb0: LeaderBookkeeping, m: Msg) returns (lb: LeaderBookkeeping, allCommitted: bool)
      requires PeersOk() && m.PreAcceptReply? && |lb0.deps| == |m.deps| == N == |CommittedUpTo|
      requires |lb0.committedDeps| == |m.committedDeps| == |inst.deps| == N
      ensures EpaxosSpec.Tally(Abs(), inst, lb0, m) == (lb, allCommitted)
      ensures PreAccepted(lb0.status) && PreAccepted(m.status) ==> PreAccepted(lb.status)
    {
      lb := lb0.(preAcceptOKs := lb0.preAcceptOKs + 1);
      if m.vballot > lb.ballot {
        lb := lb.(ballot := m.vballot, seqno := m.seqno, deps := m.deps, status := m.status);
      }
      var seqno, deps, allEqual := MergeAttributes(lb.seqno, lb.deps, m.seqno, m.deps);
      if N <= 3 && Thrifty {
      } else {
        lb := lb.(allEqual := lb.allEqual && allEqual);
      }
      allCommitted := true;
      if N > 7 {
        var committed;
        committed, allCommitted := MergeCommitted(lb.committedDeps, m.committedDeps, inst.deps);
        lb := lb.(committedDeps := committed);
      }
      if Rank(lb.status) <= Rank(PREACCEPTED_EQ) {
        lb := lb.(deps := deps, seqno := seqno);
      }
    }

    /** The loop of handlePreAcceptReply that follows how far each column is committed. */
    method MergeCommitted(mine: seq<int>, theirs: seq<int>, deps: seq<int>) returns (merged: seq<int>, allCommitted: bool)
      requires |mine| == |theirs| == |deps| == N == |CommittedUpTo|
      ensures merged == EpaxosSpec.MergeCommitted(mine, theirs, CommittedUpTo)
      ensures allCommitted <==> forall q :: 0 <= q < N ==> merged[q] >= deps[q]
    {
      merged, allCommitted := mine, true;
      for q := 0 to N
        invariant |merged| == N
        invariant forall p :: 0 <= p < q ==> merged[p] == EpaxosSpec.MergeCommitted(mine, theirs, CommittedUpTo)[p]
        invariant forall p :: q <= p < N ==> merged[p] == mine[p]
        invariant allCommitted <==> forall p :: 0 <= p < q ==> merged[p] >= deps[p]
      {
        if merged[q] < theirs[q] {
          merged := merged[q := theirs[q]];
        }
        if merged[q] < CommittedUpTo[q] {
          merged := merged[q := CommittedUpTo[q]];
        }
        if merged[q] < deps[q] {
          allCommitted := false;
        }
      }
    }

    /** The end of handlePreAcceptReply. */
    method Decide(id: Id, lb0: LeaderBookkeeping, allCommitted: bool) returns (ghost targets: seq<nat>)
      requires PeersOk() && F >= 1 && id in InstanceSpace
      requires id.replica < N == |CommittedUpTo| && CommittedUpTo[id.replica] >= -1
      modifies this`InstanceSpace, this`CommittedUpTo, this`sent
      ensures TargetsOk(old(Abs()), N, targets)
      ensures AllAlive() && PreAccepted(lb0.status) ==> EnoughFor(old(Abs()), Abs(), id, targets)
      ensures var o := EpaxosSpec.Decide(old(Abs()), id, lb0, allCommitted, targets);
        Abs() == o.st && sent == old(sent) + o.out
    {
      hide EpaxosSpec.UpdateCommitted, ConflictsKnown, Peers;
      var inst, lb := InstanceSpace[id], lb0;
      targets := [];
      var precondition := lb.allEqual && allCommitted && lb.lastTriedBallot == id.replica;
      if lb.preAcceptOKs >= FastQuorumSize(F) - 1 && precondition {
        lb := lb.(status := COMMITTED);
        InstanceSpace := InstanceSpace[id := Settle(inst, lb)];
        UpdateCommitted(id.replica);
        targets := BcastCommit(Commit(id, Id, lb.ballot, lb.cmds, lb.seqno, lb.deps));
      } else if lb.preAcceptOKs >= FastQuorumSize(F) - 1 {
        lb := lb.(status := ACCEPTED);
        InstanceSpace := InstanceSpace[id := Settle(inst, lb)];
        targets := Bcast(Accept(id, Id, lb.lastTriedBallot, lb.seqno, lb.deps), if Thrifty then N / 2 else N - 1);
      } else {
        InstanceSpace := InstanceSpace[id := inst.(lb := Some(lb))];
      }
    }

    method HandleAcceptReply(m: Msg) returns (ghost targets: seq<nat>)
      requires Valid() && m.AcceptReply? && m.id.replica < N && m.id in InstanceSpace && InstanceSpace[m.id].lb.Some?
      modifies this`InstanceSpace, this`CommittedUpTo, this`maxRecvBallot, this`sent
      ensures TargetsOk(old(Abs()), N, targets)
      ensures AllAlive() ==> EnoughFor(old(Abs()), Abs(), m.id, targets)
      ensures var o := EpaxosSpec.HandleAcceptReply(old(Abs()), m, targets);
        Abs() == o.st && sent == old(sent) + o.out
    {
      hide EpaxosSpec.UpdateCommitted, ConflictsKnown, Peers;
      targets := [];
      var inst := InstanceSpace[m.id];
      var lb := inst.lb.value;
      if m.ballot > maxRecvBallot {
        maxRecvBallot := m.ballot;
      }
      if lb.status != ACCEPTED {
        return;
      }
      if lb.lastTriedBallot != m.ballot {
        return;
      }
      lb := lb.(acceptOKs := lb.acceptOKs + 1);
      if lb.acceptOKs + 1 > N / 2 {
        lb := lb.(status := COMMITTED);
        InstanceSpace := InstanceSpace[m.id := inst.(lb := Some(lb), status := COMMITTED)];
        UpdateCommitted(m.id.replica);
        targets := BcastCommit(Commit(m.id, Id, lb.ballot, lb.cmds, lb.seqno, lb.deps));
      } else {
        InstanceSpace := InstanceSpace[m.id := inst.(lb := Some(lb))];
      }
    }

    method HandleAccept(m: Msg, now: int)
      requires Valid() && m.Accept? && m.id.replica < N
      modifies this`InstanceSpace, this`crtInstance, this`maxRecvBallot, this`sent
      ensures var o := EpaxosSpec.HandleAccept(old(Abs()), m, now);
        Abs() == o.st && sent == old(sent) + o.out
    {
      hide ConflictsKnown;
      NoteMessage(m.id, m.ballot, now);
      var inst := InstanceSpace[m.id];
      if m.ballot < inst.bal {
      } else if Rank(inst.status) >= Rank(COMMITTED) {
      } else {
        inst := inst.(deps := m.deps, seqno := m.seqno, bal := m.ballot, vbal := m.ballot);
        InstanceSpace := InstanceSpace[m.id := inst];
      }
      SendMsg(m.leaderId, AcceptReply(m.id, inst.bal));
    }

    /** The clients' proposals of a no-op instance are not proposed again: only recovery commits no-ops. */
    method HandleCommit(m: Msg, now: int)
      requires Valid() && m.Commit? && m.id.replica < N
      modifies this`InstanceSpace, this`crtInstance, this`conflicts, this`maxSeqPerKey, this`CommittedUpTo,
        this`maxRecvBallot
      ensures Abs() == EpaxosSpec.HandleCommit(old(Abs()), m, now).st
      ensures EpaxosSpec.HandleCommit(old(Abs()), m, now).out == []
    {
      assert |conflicts| == N;
      hide ConflictsKnown, EpaxosSpec.UpdateConflicts, EpaxosSpec.UpdateCommitted;
      NoteMessage(m.id, m.ballot, now);
      var inst := InstanceSpace[m.id];
      if Rank(inst.status) >= Rank(COMMITTED) || m.ballot < inst.bal {
        return;
      }
      InstanceSpace := InstanceSpace[m.id := inst.(
        bal := m.ballot, vbal := m.ballot, cmds := Some(m.command), seqno := m.seqno, deps := m.deps,
        status := COMMITTED)];
      UpdateConflicts(m.command, m.id, m.seqno);
      UpdateCommitted(m.id.replica);
    }
  }

  /** The first n - 1 entries are distinct peers of id. */
  ghost predicate Peers(order: seq<nat>, id: nat, n: nat) {
    && |order| == n
    && (forall i :: 0 <= i < n - 1 ==> order[i] < n && order[i] != id)
    && forall i, j :: 0 <= i < j < n - 1 ==> order[i] != order[j]
  }

  ghost predicate PreAcceptFits(st: RState, m: Msg) {
    m.PreAccept? && m.leaderId == m.id.replica < st.n && |m.deps| == st.n
    && forall i :: 0 <= i < |m.deps| ==> -1 <= m.deps[i]
  }

  function Noted(st: RState, id: Id, ballot: int, now: int): (st': RState)
    requires id.replica < |st.crtInstance|
    ensures id in st'.space
  {
    var st1 := Notice(st, id, ballot);
    st1.(space := st1.space[id := Lookup(st1, id, now)])
  }

  lemma CountedUp(st: RState)
    requires Local(st)
    ensures Local(st.(crtInstance := st.crtInstance[st.id := st.crtInstance[st.id] + 1]))
  {
  }

  /** handlePreAccept, with the steps of the method named. */
  lemma PreAcceptUnfolds(st: RState, m: Msg, now: int)
    requires Local(st) && PreAcceptFits(st, m)
    ensures |st.crtInstance| == st.n
    ensures var st2 := Noted(st.(maxSeq := if m.seqno >= st.maxSeq then m.seqno + 1 else st.maxSeq), m.id, m.ballot, now);
      && ConflictsKnown(st2)
      && st2.n == st.n && st2.id == st.id
      && EpaxosSpec.HandlePreAccept(st, m, now) ==
           if m.ballot < st2.space[m.id].bal then Outcome(st2, [])
           else
             var st4 := EpaxosSpec.RecordPreAccept(st2, m);
             var i := st4.space[m.id];
             Outcome(st4, [Packet(st.id, m.leaderId,
                                  PreAcceptReply(m.id, i.bal, i.vbal, i.seqno, i.deps, st4.committedUpTo, i.status))])
  {
    hide EpaxosSpec.RecordPreAccept;
    forall q, k | 0 <= q < st.n && k in st.conflicts[q]
      ensures PairKnown(st.space, q, st.conflicts[q][k])
    {
    }
  }

  lemma PeersInOrder(id: nat, n: nat)
    requires id < n
    ensures Peers(seq(n, i requires 0 <= i < n => (id + 1 + i) % n), id, n)
  {
    var order := seq(n, i requires 0 <= i < n => (id + 1 + i) % n);
    forall i | 0 <= i < n - 1
      ensures order[i] == if id + 1 + i < n then id + 1 + i else id + 1 + i - n
    {
      WrapsOnce(id + 1 + i, n);
    }
  }

  lemma WrapsOnce(x: nat, n: nat)
    requires x < 2 * n
    ensures x % n == if x < n then x else x - n
  {
    FactorBound(x / n, n);
  }

  lemma FactorBound(q: nat, n: nat)
    requires q * n < 2 * n
    ensures q < 2
  {
  }

  lemma RecordMore(column: map<Key, InstPair>, m: map<Key, int>, cmds: seq<Command>, i: nat, instance: int, seqno: int)
    requires i < |cmds|
    ensures RecordCommands(column, cmds[..i + 1], instance) == RecordCommand(RecordCommands(column, cmds[..i], instance), cmds[i], instance)
    ensures RecordSeqs(m, cmds[..i + 1], seqno) == RecordSeq(RecordSeqs(m, cmds[..i], seqno), cmds[i], seqno)
  {
    assert cmds[..i + 1][..i] == cmds[..i];
  }

  lemma PeerAt(order: seq<nat>, id: nat, n: nat, q: nat)
    requires Peers(order, id, n) && q < n - 1
    ensures order[q] < n && order[q] != id && order[q] !in order[..q]
    ensures order[..q + 1] == order[..q] + [order[q]]
  {
  }

  lemma BroadcastMore(src: nat, targets: seq<nat>, peer: nat, m: Msg)
    ensures Broadcast(src, targets + [peer], m) == Broadcast(src, targets, m) + [Packet(src, peer, m)]
  {
  }
}
