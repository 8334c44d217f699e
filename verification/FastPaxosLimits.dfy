/** The exact limits of Fast Paxos with one fixed quorum: when a replica outside the quorum loses a value
    that it has committed, and when a replica dies on a command that no client has sent it. */
module FastPaxosLimits {
  import opened State
  import opened CommandIds
  import opened Options
  import opened Quorum
  import opened MsgSet
  import opened FastPaxosSpec
  import opened FastPaxos

  // ---------------------------------------------------------------- what a message does to the instances

  /** The messages of the set that m joins. */
  function MsgsWith(st: RState, m: M2B): map<nat, M2B> {
    GetM2bSet(GetInstance(Join(st, m), m.instanceId), m.ballot).msgs
  }

  predicate Completes(st: RState, m: M2B) {
    Calls(st.quorum, AcceptAll(), GetM2bSet(GetInstance(st, m.instanceId), m.ballot), m.replica, false, m)
  }

  /** m completes a set that is of one mind or belongs to the current ballot: the value of the instance is
      fixed by the quorum. */
  ghost predicate Decides(st: RState, m: M2B) {
    Completes(st, m) && (AllEqual(MsgsWith(st, m)) || GetInstance(st, m.instanceId).ballot == m.ballot)
  }

  /** m makes the replica commit: the completed set is of one mind, or the replica's own vote for the next
      ballot, cast in reply, completes the set of that ballot. */
  ghost predicate WillCommit(st: RState, m: M2B) {
    && Completes(st, m)
    && (AllEqual(MsgsWith(st, m))
        || (GetInstance(st, m.instanceId).ballot == m.ballot && st.quorum.Contains(st.id)
            && |GetM2bSet(GetInstance(st, m.instanceId), m.ballot + 1).msgs.Keys + {st.id}| >= st.quorum.Size()))
  }

  lemma {:induction false} ExecutionLeavesInstances(st: RState, x: nat)
    requires st.lastExecuted >= -1
    ensures GetInstance(ExecuteFrom(st), x) == GetInstance(st, x)
    decreases CommittedAbove(st)
  {
    var k: nat := st.lastExecuted + 1;
    var inst := GetInstance(st, k);
    var st0 := Put(st, k, inst);
    if inst.committed {
      var st1 := Perform(st0, k, inst.value);
      assert GetInstance(st1, x) == GetInstance(st, x);
      if !st1.panicked {
        assert k in CommittedAbove(st);
        ExecutionLeavesInstances(st1, x);
      }
    }
  }

  lemma CommitInstances(st: RState, i: nat, v: CommandId, x: nat)
    requires st.lastExecuted >= -1
    ensures GetInstance(Commit(st, i, v), x)
         == if x == i then GetInstance(st, i).(value := v, committed := true) else GetInstance(st, x)
  {
    ExecutionLeavesInstances(Put(st, i, GetInstance(st, i).(value := v, committed := true)), x);
  }

  lemma JoinInstances(st: RState, m: M2B)
    ensures forall x: nat :: x != m.instanceId ==> GetInstance(Join(st, m), x) == GetInstance(st, x)
    ensures var inst := GetInstance(Join(st, m), m.instanceId);
      inst == GetInstance(st, m.instanceId).(m2bSets := inst.m2bSets)
      && forall b :: b != m.ballot ==> GetM2bSet(inst, b) == GetM2bSet(GetInstance(st, m.instanceId), b)
    ensures Join(st, m) == st.(instances := Join(st, m).instances)
    ensures m.instanceId in Join(st, m).instances && m.ballot in Join(st, m).instances[m.instanceId].m2bSets
  {
  }

  /** What a message does to instance x. */
  ghost predicate Effect(st: RState, m: M2B, st': RState, chosen: seq<CommandId>, x: nat) {
    && (x == m.instanceId && Decides(st, m) ==> x < |chosen|)
    && GetInstance(st', x).value == (if x == m.instanceId && Decides(st, m) then chosen[x] else GetInstance(st, x).value)
    && (GetInstance(st', x).committed <==> GetInstance(st, x).committed || (x == m.instanceId && WillCommit(st, m)))
  }

  /** The set of ballot 1 that holds the replica's own recovery vote. */
  lemma OwnVote(g: Global, h: nat, st: RState, st2: RState, m: M2B, m2b: M2B)
    requires NodeOk(g, h, st) && Highest(g.q, h)
    requires m2b.replica == st.id == st2.id && m2b.instanceId == m.instanceId && m2b.ballot == m.ballot + 1
    requires st2.quorum == st.quorum
    requires GetM2bSet(GetInstance(st2, m.instanceId), m.ballot + 1) == GetM2bSet(GetInstance(st, m.instanceId), m.ballot + 1)
    ensures Completes(st2, m2b) <==>
              st.quorum.Contains(st.id)
              && |GetM2bSet(GetInstance(st, m.instanceId), m.ballot + 1).msgs.Keys + {st.id}| >= st.quorum.Size()
  {
    QuorumIs(g, h, st);
    CurrentOk(g, h, st, m.instanceId);
    var s := GetM2bSet(GetInstance(st, m.instanceId), m.ballot + 1);
    assert s.leaderMsg.None?;
    assert s.msgs[st.id := m2b].Keys == s.msgs.Keys + {st.id};
    assert |s.msgs[st.id := m2b]| == |s.msgs[st.id := m2b].Keys|;
  }

  lemma RecoverInstances(st: RState, i: nat, b: int, x: nat)
    requires SetsOk(st) && i in st.instances && b in st.instances[i].m2bSets && st.instances[i].m2bSets[b].msgs.Keys != {}
    ensures var msgs := st.instances[i].m2bSets[b].msgs;
      (forall o :: o in msgs ==> msgs[o].replica == o)
      && GetInstance(Recover(st, i, b).0, x).committed == GetInstance(st, x).committed
      && GetInstance(Recover(st, i, b).0, x).m2bSets == GetInstance(st, x).m2bSets
      && GetInstance(Recover(st, i, b).0, x).value == (if x == i then msgs[LastOf(msgs)].cmdId else GetInstance(st, x).value)
      && Recover(st, i, b).0 == st.(instances := Recover(st, i, b).0.instances)
      && Recover(st, i, b).1.replica == st.id && Recover(st, i, b).1.instanceId == i
  {
    assert SetOk(st.instances[i].m2bSets[b], i, b);
  }

  lemma {:induction false} MessageEffect(g: Global, h: nat, st: RState, m: M2B, x: nat)
    requires NodeOk(g, h, st) && !st.panicked && MsgOk(g.q, g.proposals, h, m) && Highest(g.q, h)
    requires forall s :: s in g.q ==> s < |g.proposals|
    ensures SetsOk(st) && Effect(st, m, HandleM2B(st, m).st, if h < |g.proposals| then g.proposals[h] else [], x)
    decreases BallotsFrom(st, m.instanceId, m.ballot)
  {
    hide NodeOk, MsgOk, Everyone, InstOk, ExecOk, Commit, Highest, AddTo, SetsOk, Calls, IsLast, AllEqual, BallotsFrom,
      Recover, GetM2bSet, GetInstance, Join;
    QuorumIs(g, h, st);
    JoinInstances(st, m);
    JoinOk(g, h, st, m);
    var i, b, st1 := m.instanceId, m.ballot, Join(st, m);
    if Completes(st, m) {
      CompleteIsEveryone(g, h, st, m);
      CompleteChooses(g, h, st1, i, b);
      MsgsInPlace(st1, i, b);
      if AllEqual(st1.instances[i].m2bSets[b].msgs) {
        JoinedLast(g, h, st1);
        CommitInstances(st1, i, m.cmdId, x);
      } else if st1.instances[i].ballot == b {
        RecoverOk(g, h, st1, i, b);
        RecoveryShrinks(st, m);
        RecoverInstances(st1, i, b, x);
        RecoverInstances(st1, i, b, i);
        var (st2, m2b) := Recover(st1, i, b);
        MessageEffect(g, h, st2, m2b, x);
        SameSets(GetInstance(st2, i), GetInstance(st1, i));
        OwnVote(g, h, st, st2, m, m2b);
        VotesAgree(g, h, st2, m2b);
      }
    }
  }

  lemma MsgsInPlace(st: RState, i: nat, b: int)
    requires i in st.instances && b in st.instances[i].m2bSets
    ensures GetInstance(st, i) == st.instances[i] && GetM2bSet(st.instances[i], b) == st.instances[i].m2bSets[b]
  {
  }

  lemma JoinedLast(g: Global, h: nat, st: RState)
    requires NodeOk(g, h, st)
    ensures st.lastExecuted >= -1
  {
  }

  lemma SameSets(a: Inst, b: Inst)
    requires a.m2bSets == b.m2bSets
    ensures forall x :: GetM2bSet(a, x) == GetM2bSet(b, x)
  {
  }

  /** A complete set of ballot 1 is of one mind. */
  lemma VotesAgree(g: Global, h: nat, st: RState, m: M2B)
    requires NodeOk(g, h, st) && MsgOk(g.q, g.proposals, h, m) && Highest(g.q, h) && m.ballot == 1
    requires forall s :: s in g.q ==> s < |g.proposals|
    ensures Completes(st, m) ==> AllEqual(MsgsWith(st, m))
  {
    hide NodeOk, MsgOk, Highest, Calls, AddTo, Join, AllEqual, InstOk, Everyone;
    if Completes(st, m) {
      CompleteIsEveryone(g, h, st, m);
      CompleteChooses(g, h, Join(st, m), m.instanceId, 1);
    }
  }

  // ---------------------------------------------------------------- losing a committed value

  /** Everything that s has committed is what the quorum chose. */
  ghost predicate HoldsChosen(g: Global, h: nat, s: nat) {
    s < |g.nodes| && forall i :: i in g.nodes[s].instances && g.nodes[s].instances[i].committed ==> HoldsChosenAt(g, h, s, i)
  }

  ghost predicate HoldsChosenAt(g: Global, h: nat, s: nat, i: nat) {
    h < |g.proposals| && i < |g.proposals[h]| && s < |g.nodes| && GetInstance(g.nodes[s], i).value == g.proposals[h][i]
  }

  /** The guard: the instance that s proposes for next is committed there with another value than c. */
  predicate Overwrites(st: RState, c: CommandId) {
    GetInstance(st, st.next).committed && GetInstance(st, st.next).value != c
  }

  ghost predicate OverwritingStep(g: Global, g': Global, s: nat) {
    exists c :: ProposeStep(g, g', s, c) && Overwrites(g.nodes[s], c)
  }

  ghost function Chosen(g: Global, h: nat): seq<CommandId> {
    if h < |g.proposals| then g.proposals[h] else []
  }

  lemma NodeIs(g: Global, h: nat, s: nat)
    requires Inv(g, h) && s < |g.nodes|
    ensures NodeOk(g, h, g.nodes[s]) && g.nodes[s].id == s && Highest(g.q, h) && forall r :: r in g.q ==> r < |g.proposals|
  {
    hide NodeOk, MsgOk, Highest;
  }

  /** A proposal changes a committed value exactly when the guard holds. */
  lemma ProposalChanges(g: Global, g': Global, h: nat, s: nat, c: CommandId, i: nat)
    requires Inv(g, h) && ProposeStep(g, g', s, c) && GetInstance(g.nodes[s], i).committed
    ensures GetInstance(g'.nodes[s], i).committed
    ensures GetInstance(g'.nodes[s], i).value == if i == g.nodes[s].next then c else GetInstance(g.nodes[s], i).value
  {
    hide NodeOk, MsgOk, Highest, HandleM2B, GetInstance, Completes, WillCommit, Inv, Proposed, ProposalMsg;
    var st := g.nodes[s];
    NodeIs(g, h, s);
    ProposalEffect(g, g', h, s, c, i);
    ProposedInstances(st, c, g.cmdOf(c), i);
    if i == st.next {
      OwnProposalWaits(g, h, st, c);
    }
  }

  lemma ProposedInstances(st: RState, c: CommandId, command: Command, x: nat)
    ensures var inst, inst' := GetInstance(st, x), GetInstance(Proposed(st, c, command), x);
      inst' == if x == st.next then inst.(value := c) else inst
    ensures ProposalMsg(st, c).instanceId == st.next
  {
  }

  lemma ProposalEffect(g: Global, g': Global, h: nat, s: nat, c: CommandId, x: nat)
    requires Inv(g, h) && ProposeStep(g, g', s, c)
    ensures Effect(Proposed(g.nodes[s], c, g.cmdOf(c)), ProposalMsg(g.nodes[s], c), g'.nodes[s], Chosen(g', h), x)
  {
    hide NodeOk, MsgOk, Highest, HandleM2B, Effect, Proposed, ProposalMsg;
    var st := g.nodes[s];
    ProposedOk(g, g', h, st, c);
    QuorumIs(g', h, Proposed(st, c, g.cmdOf(c)));
    MessageEffect(g', h, Proposed(st, c, g.cmdOf(c)), ProposalMsg(st, c), x);
  }

  /** A proposal for a committed instance comes from outside the quorum, and its message counts for nothing. */
  lemma OwnProposalWaits(g: Global, h: nat, st: RState, c: CommandId)
    requires NodeOk(g, h, st) && GetInstance(st, st.next).committed
    ensures st.id !in g.q && !Completes(Proposed(st, c, g.cmdOf(c)), ProposalMsg(st, c))
  {
    NextIsOpen(g, h, st);
  }

  /** A message changes a committed value exactly when it decides on the instance and the value had been
      lost, and then it brings back the chosen one. */
  lemma DeliveryChanges(g: Global, g': Global, h: nat, s: nat, m: M2B, i: nat)
    requires Inv(g, h) && DeliverStep(g, g', s, m) && GetInstance(g.nodes[s], i).committed
    ensures GetInstance(g'.nodes[s], i).committed
    ensures GetInstance(g'.nodes[s], i).value != GetInstance(g.nodes[s], i).value <==>
              i == m.instanceId && Decides(g.nodes[s], m) && !HoldsChosenAt(g, h, s, i)
    ensures GetInstance(g'.nodes[s], i).value != GetInstance(g.nodes[s], i).value ==> HoldsChosenAt(g', h, s, i)
  {
    hide NodeOk, Highest, HandleM2B, GetInstance, Decides, WillCommit, MsgOk;
    NodeIs(g, h, s);
    assert MsgOk(g.q, g.proposals, h, m);
    MessageEffect(g, h, g.nodes[s], m, i);
    assert g'.nodes[s] == HandleM2B(g.nodes[s], m).st;
  }

  /** What another replica does leaves s alone. */
  lemma OthersKeep(g: Global, g': Global, h: nat, s: nat)
    requires HoldsChosen(g, h, s) && |g'.nodes| == |g.nodes| && Extended(g.proposals, g'.proposals)
    requires g'.nodes[s].instances == g.nodes[s].instances
    ensures HoldsChosen(g', h, s)
  {
    forall i | i in g'.nodes[s].instances && g'.nodes[s].instances[i].committed ensures HoldsChosenAt(g', h, s, i) {
      assert HoldsChosenAt(g, h, s, i);
      assert g.proposals[h] <= g'.proposals[h];
    }
  }

  lemma DeliveryKeeps(g: Global, g': Global, h: nat, s: nat, r: nat, m: M2B)
    requires Inv(g, h) && DeliverStep(g, g', r, m) && HoldsChosen(g, h, s)
    ensures HoldsChosen(g', h, s)
  {
    hide NodeOk, MsgOk, Highest, HandleM2B, Decides, WillCommit;
    NodeIs(g, h, s);
    if r != s {
      OthersKeep(g, g', h, s);
    } else {
      forall i | i in g'.nodes[s].instances && g'.nodes[s].instances[i].committed ensures HoldsChosenAt(g', h, s, i) {
        MessageEffect(g, h, g.nodes[s], m, i);
        WillCommitDecides(g, h, g.nodes[s], m);
        assert GetInstance(g.nodes[s], i).committed ==> HoldsChosenAt(g, h, s, i);
      }
    }
  }

  lemma WillCommitDecides(g: Global, h: nat, st: RState, m: M2B)
    requires NodeOk(g, h, st) && MsgOk(g.q, g.proposals, h, m) && Highest(g.q, h)
    ensures WillCommit(st, m) ==> Decides(st, m)
  {
    hide NodeOk, MsgOk, Highest, Calls, AddTo;
  }

  lemma ProposalKeepsIff(g: Global, g': Global, h: nat, s: nat, c: CommandId)
    requires Inv(g, h) && ProposeStep(g, g', s, c) && HoldsChosen(g, h, s)
    ensures HoldsChosen(g', h, s) <==> !Overwrites(g.nodes[s], c)
  {
    hide NodeOk, MsgOk, Highest, HandleM2B, Decides, WillCommit, Inv, ProposeStep;
    StepShape(g, g', h, s, c);
    var st, st' := g.nodes[s], g'.nodes[s];
    forall i | i in st'.instances && st'.instances[i].committed && !(i == st.next && Overwrites(st, c))
      ensures HoldsChosenAt(g', h, s, i)
    {
      ProposalEffect(g, g', h, s, c, i);
      ProposedInstances(st, c, g.cmdOf(c), i);
      ProposedDecides(g, g', h, s, c);
      if GetInstance(st, i).committed {
        ProposalChanges(g, g', h, s, c, i);
        assert HoldsChosenAt(g, h, s, i);
      }
    }
    if Overwrites(st, c) {
      ProposalChanges(g, g', h, s, c, st.next);
      assert HoldsChosenAt(g, h, s, st.next);
    }
  }

  lemma StepShape(g: Global, g': Global, h: nat, s: nat, c: CommandId)
    requires Inv(g, h) && ProposeStep(g, g', s, c)
    ensures |g'.nodes| == |g.nodes| && s < |g.nodes| && Extended(g.proposals, g'.proposals)
    ensures forall r :: 0 <= r < |g.nodes| && r != s ==> g'.nodes[r] == g.nodes[r]
  {
    hide NodeOk, MsgOk, Highest, HandleM2B;
  }

  lemma ProposedDecides(g: Global, g': Global, h: nat, s: nat, c: CommandId)
    requires Inv(g, h) && ProposeStep(g, g', s, c)
    ensures var st1, m := Proposed(g.nodes[s], c, g.cmdOf(c)), ProposalMsg(g.nodes[s], c);
      WillCommit(st1, m) ==> Decides(st1, m)
  {
    hide NodeOk, MsgOk, Highest, HandleM2B, Decides, WillCommit, Proposed, ProposalMsg;
    ProposedOk(g, g', h, g.nodes[s], c);
    NodeHighest(g, h);
    WillCommitDecides(g', h, Proposed(g.nodes[s], c, g.cmdOf(c)), ProposalMsg(g.nodes[s], c));
  }

  lemma NodeHighest(g: Global, h: nat)
    requires Inv(g, h)
    ensures Highest(g.q, h)
  {
  }

  /** A replica that holds the chosen values goes on to hold them exactly unless it overwrites one. */
  lemma StepKeepsChosenIff(g: Global, g': Global, h: nat, s: nat)
    requires Inv(g, h) && Next(g, g') && HoldsChosen(g, h, s)
    ensures HoldsChosen(g', h, s) <==> !OverwritingStep(g, g', s)
  {
    hide Inv, ProposeStep, DeliverStep, HoldsChosen, Overwrites;
    StillThere(g, h, s);
    forall c | ProposeStep(g, g', s, c) ensures HoldsChosen(g', h, s) <==> !Overwrites(g.nodes[s], c) {
      ProposalKeepsIff(g, g', h, s, c);
    }
    if r, c :| ProposeStep(g, g', r, c) {
      StepShape(g, g', h, r, c);
      if r != s {
        OthersKeep(g, g', h, s);
      }
    } else {
      var r, m :| DeliverStep(g, g', r, m);
      DeliveryKeeps(g, g', h, s, r, m);
    }
  }

  lemma StillThere(g: Global, h: nat, s: nat)
    requires HoldsChosen(g, h, s)
    ensures s < |g.nodes|
  {
  }

  ghost predicate LosingStep(g: Global, g': Global, s: nat, i: nat, c: CommandId) {
    ProposeStep(g, g', s, c) && i == g.nodes[s].next && Overwrites(g.nodes[s], c)
  }

  ghost predicate RestoringStep(g: Global, g': Global, h: nat, s: nat, i: nat, m: M2B) {
    DeliverStep(g, g', s, m) && i == m.instanceId && Decides(g.nodes[s], m) && !HoldsChosenAt(g, h, s, i)
  }

  /** In every run, the value of a committed instance changes exactly when a proposal hits it with another
      command, or when the value was lost so and a message brings the chosen one back. */
  lemma CommittedValueChangesIff(run: seq<Global>, h: nat, g': Global, s: nat, i: nat)
    requires IsRun(run) && Highest(run[0].q, h) && Next(run[|run| - 1], g') && CommittedAt(run[|run| - 1], s, i)
    ensures CommittedAt(g', s, i)
    ensures var g := run[|run| - 1];
      (g'.nodes[s].instances[i].value != g.nodes[s].instances[i].value) <==>
      ((exists c :: LosingStep(g, g', s, i, c)) || (exists m :: RestoringStep(g, g', h, s, i, m)))
  {
    hide Inv, ProposeStep, DeliverStep, HoldsChosenAt, Decides, Highest;
    var g := run[|run| - 1];
    RunInv(run, h);
    forall c | ProposeStep(g, g', s, c) ensures CommittedAt(g', s, i) {
      ProposalChanges(g, g', h, s, c, i);
      StepShape(g, g', h, s, c);
    }
    forall c | ProposeStep(g, g', s, c)
      ensures g'.nodes[s].instances[i].value != g.nodes[s].instances[i].value <==> LosingStep(g, g', s, i, c)
    {
      ProposalChanges(g, g', h, s, c, i);
    }
    forall m | DeliverStep(g, g', s, m) ensures CommittedAt(g', s, i) {
      DeliveryChanges(g, g', h, s, m, i);
      DeliveryShape(g, g', s, m);
    }
    forall m | DeliverStep(g, g', s, m)
      ensures g'.nodes[s].instances[i].value != g.nodes[s].instances[i].value <==> RestoringStep(g, g', h, s, i, m)
    {
      DeliveryChanges(g, g', h, s, m, i);
    }
    if r, c :| ProposeStep(g, g', r, c) {
      StepShape(g, g', h, r, c);
    } else {
      var r, m :| DeliverStep(g, g', r, m);
      DeliveryShape(g, g', r, m);
    }
  }

  lemma DeliveryShape(g: Global, g': Global, s: nat, m: M2B)
    requires DeliverStep(g, g', s, m)
    ensures |g'.nodes| == |g.nodes| && s < |g.nodes|
    ensures forall r :: 0 <= r < |g.nodes| && r != s ==> g'.nodes[r] == g.nodes[r]
  {
    hide HandleM2B;
  }

  /** The members of the quorum never overwrite. */
  lemma MembersNeverOverwrite(run: seq<Global>, h: nat, s: nat, c: CommandId)
    requires IsRun(run) && Highest(run[0].q, h) && s in run[0].q
    ensures var g := run[|run| - 1];
      s < |g.nodes| && !GetInstance(g.nodes[s], g.nodes[s].next).committed && !Overwrites(g.nodes[s], c)
  {
    hide Next, NodeOk;
    RunInv(run, h);
    var g := run[|run| - 1];
    NodeIs(g, h, s);
    NextIsOpen(g, h, g.nodes[s]);
  }

  /** In every run, a replica holds the chosen value of everything that it has committed, at every moment,
      if and only if it never proposes for an instance that it has committed with another value. */
  lemma {:induction false} CommittedValuesStayIff(run: seq<Global>, h: nat, s: nat)
    requires IsRun(run) && Highest(run[0].q, h) && s < |run[0].nodes|
    ensures (forall k :: 0 <= k < |run| ==> HoldsChosen(run[k], h, s)) <==>
            (forall k :: 0 <= k < |run| - 1 ==> !OverwritingStep(run[k], run[k + 1], s))
    decreases |run|
  {
    hide Next, Inv, HoldsChosen, OverwritingStep, Highest, Init;
    var n := |run| - 1;
    if n == 0 {
      NothingCommitted(run[0], h, s);
    } else {
      RunInit(run);
      var before := run[..n];
      CommittedValuesStayIff(before, h, s);
      RunInv(before, h);
      assert forall k :: 0 <= k < n ==> run[k] == before[k];
      if HoldsChosen(run[n - 1], h, s) {
        StepKeepsChosenIff(run[n - 1], run[n], h, s);
      }
      SameSteps(run, h, s);
    }
  }

  lemma NothingCommitted(g: Global, h: nat, s: nat)
    requires Init(g) && s < |g.nodes|
    ensures HoldsChosen(g, h, s)
  {
  }

  /** The claims about a run and about its beginning. */
  lemma SameSteps(run: seq<Global>, h: nat, s: nat)
    requires |run| > 1
    ensures var n, before := |run| - 1, run[..|run| - 1];
      && ((forall k :: 0 <= k < |run| ==> HoldsChosen(run[k], h, s)) <==>
          (forall k :: 0 <= k < n ==> HoldsChosen(before[k], h, s)) && HoldsChosen(run[n], h, s))
      && ((forall k :: 0 <= k < n ==> !OverwritingStep(run[k], run[k + 1], s)) <==>
          (forall k :: 0 <= k < n - 1 ==> !OverwritingStep(before[k], before[k + 1], s))
          && !OverwritingStep(run[n - 1], run[n], s))
  {
    hide HoldsChosen, OverwritingStep;
    var n, before := |run| - 1, run[..|run| - 1];
    assert forall k :: 0 <= k < n ==> run[k] == before[k];
  }

  // ---------------------------------------------------------------- dying on an unknown command

  /** The executor gets to instance k and does not know its command. */
  ghost predicate StuckAt(st: RState, k: nat) {
    && st.lastExecuted < k && (forall j: nat :: st.lastExecuted < j <= k ==> GetInstance(st, j).committed)
    && GetInstance(st, k).value !in st.delivered && GetInstance(st, k).value !in st.cmds
  }

  /** The executor dies exactly when the gap-free committed stretch that it starts on holds a command that
      was neither executed nor received from a client. */
  lemma {:induction false} ExecutorDiesIff(st: RState)
    requires st.lastExecuted >= -1 && !st.panicked
    ensures ExecuteFrom(st).panicked <==> exists k :: StuckAt(st, k)
    decreases CommittedAbove(st)
  {
    hide Apply;
    var k0: nat := st.lastExecuted + 1;
    var inst := GetInstance(st, k0);
    var st0 := Put(st, k0, inst);
    if inst.committed {
      var st1 := Perform(st0, k0, inst.value);
      if st1.panicked {
        assert StuckAt(st, k0);
      } else {
        assert k0 in CommittedAbove(st);
        ExecutorDiesIff(st1);
        forall k: nat ensures StuckAt(st, k) <==> StuckAt(st1, k) {
          StuckLater(st, st1, k0, k);
        }
      }
    }
  }

  lemma StuckLater(st: RState, st1: RState, k0: nat, k: nat)
    requires k0 == st.lastExecuted + 1 && GetInstance(st, k0).committed
    requires st1 == Perform(Put(st, k0, GetInstance(st, k0)), k0, GetInstance(st, k0).value) && !st1.panicked && !st.panicked
    ensures StuckAt(st, k) <==> StuckAt(st1, k)
  {
    hide Apply;
    assert forall j: nat :: GetInstance(st1, j) == GetInstance(st, j);
  }

  /** StuckAt once the value v is installed for instance i. */
  ghost predicate DiesOn(st: RState, i: nat, v: CommandId) {
    exists k :: StuckAt(Put(st, i, GetInstance(st, i).(value := v, committed := true)), k)
  }

  lemma CommitDiesIff(st: RState, i: nat, v: CommandId)
    requires st.lastExecuted >= -1 && !st.panicked
    ensures Commit(st, i, v).panicked <==> DiesOn(st, i, v)
  {
    ExecutorDiesIff(Put(st, i, GetInstance(st, i).(value := v, committed := true)));
  }

  /** The value of the last message of the set that m joins. */
  ghost function Winner(st: RState, m: M2B): CommandId
    requires SetsOk(st)
  {
    JoinKeepsSets(st, m);
    assert SetOk(Join(st, m).instances[m.instanceId].m2bSets[m.ballot], m.instanceId, m.ballot);
    if MsgsWith(st, m).Keys == {} then m.cmdId else MsgsWith(st, m)[LastOf(MsgsWith(st, m))].cmdId
  }

  /** States that differ in what they have heard, and in the value of instance i. */
  ghost predicate AlikeButFor(st: RState, st2: RState, i: nat) {
    && st2.lastExecuted == st.lastExecuted && st2.delivered == st.delivered && st2.cmds == st.cmds
    && forall x: nat :: GetInstance(st2, x).committed == GetInstance(st, x).committed
                        && (x != i ==> GetInstance(st2, x).value == GetInstance(st, x).value)
  }

  lemma SameDeath(st: RState, st2: RState, i: nat, v: CommandId)
    requires AlikeButFor(st, st2, i)
    ensures DiesOn(st, i, v) <==> DiesOn(st2, i, v)
  {
    var a := Put(st, i, GetInstance(st, i).(value := v, committed := true));
    var b := Put(st2, i, GetInstance(st2, i).(value := v, committed := true));
    forall j: nat
      ensures GetInstance(a, j).committed == GetInstance(b, j).committed && GetInstance(a, j).value == GetInstance(b, j).value
    {
      Installed(st, i, v, j);
      Installed(st2, i, v, j);
    }
    hide GetInstance;
    assert forall k: nat :: StuckAt(a, k) <==> StuckAt(b, k);
  }

  lemma Installed(st: RState, i: nat, v: CommandId, j: nat)
    ensures var inst := GetInstance(Put(st, i, GetInstance(st, i).(value := v, committed := true)), j);
      inst.committed == (j == i || GetInstance(st, j).committed) && inst.value == if j == i then v else GetInstance(st, j).value
  {
  }

  lemma WinnerIs(st: RState, m: M2B)
    requires SetsOk(st) && Completes(st, m)
    ensures m.replica in MsgsWith(st, m) && MsgsWith(st, m)[m.replica] == m
    ensures AllEqual(MsgsWith(st, m)) ==> Winner(st, m) == m.cmdId
    ensures forall o :: o in MsgsWith(st, m) ==> MsgsWith(st, m)[o].replica == o
    ensures Winner(st, m) == MsgsWith(st, m)[LastOf(MsgsWith(st, m))].cmdId
  {
    JoinKeepsSets(st, m);
    assert SetOk(Join(st, m).instances[m.instanceId].m2bSets[m.ballot], m.instanceId, m.ballot);
  }

  lemma AlikeIfJoined(st: RState, m: M2B)
    ensures AlikeButFor(st, Join(st, m), m.instanceId)
  {
  }

  lemma AlikeIfRecovered(st: RState, i: nat, b: int)
    requires SetsOk(st) && i in st.instances && b in st.instances[i].m2bSets && st.instances[i].m2bSets[b].msgs.Keys != {}
    ensures AlikeButFor(st, Recover(st, i, b).0, i)
    ensures var msgs := st.instances[i].m2bSets[b].msgs;
      (forall o :: o in msgs ==> msgs[o].replica == o) && Recover(st, i, b).1.cmdId == msgs[LastOf(msgs)].cmdId
  {
    assert SetOk(st.instances[i].m2bSets[b], i, b);
  }

  lemma {:induction false} MessageDiesIff(g: Global, h: nat, st: RState, m: M2B)
    requires NodeOk(g, h, st) && !st.panicked && MsgOk(g.q, g.proposals, h, m) && Highest(g.q, h)
    requires forall s :: s in g.q ==> s < |g.proposals|
    ensures SetsOk(st)
    ensures HandleM2B(st, m).st.panicked <==> WillCommit(st, m) && DiesOn(st, m.instanceId, Winner(st, m))
    decreases BallotsFrom(st, m.instanceId, m.ballot)
  {
    hide NodeOk, MsgOk, Everyone, InstOk, ExecOk, Commit, Highest, AddTo, SetsOk, Calls, IsLast, AllEqual, BallotsFrom,
      Recover, GetM2bSet, GetInstance, Join, DiesOn, AlikeButFor, Winner;
    QuorumIs(g, h, st);
    JoinInstances(st, m);
    JoinOk(g, h, st, m);
    var i, b, st1 := m.instanceId, m.ballot, Join(st, m);
    if Completes(st, m) {
      CompleteIsEveryone(g, h, st, m);
      MsgsInPlace(st1, i, b);
      WinnerIs(st, m);
      AlikeIfJoined(st, m);
      SameDeath(st, st1, i, Winner(st, m));
      if AllEqual(st1.instances[i].m2bSets[b].msgs) {
        JoinedLast(g, h, st1);
        CommitDiesIff(st1, i, m.cmdId);
      } else if st1.instances[i].ballot == b {
        RecoverOk(g, h, st1, i, b);
        RecoveryShrinks(st, m);
        RecoverInstances(st1, i, b, i);
        AlikeIfRecovered(st1, i, b);
        var (st2, m2b) := Recover(st1, i, b);
        SameDeath(st1, st2, i, Winner(st, m));
        MessageDiesIff(g, h, st2, m2b);
        SameSets(GetInstance(st2, i), GetInstance(st1, i));
        OwnVote(g, h, st, st2, m, m2b);
        if Completes(st2, m2b) {
          VotesAgree(g, h, st2, m2b);
          WinnerIs(st2, m2b);
        }
      }
    }
  }

  /** In every run, a replica dies on an arriving message exactly when that message makes it commit and the
      gap-free committed stretch after what it has executed then holds an unknown command. */
  lemma ReplicaDiesIff(run: seq<Global>, h: nat, g': Global, s: nat, m: M2B)
    requires IsRun(run) && Highest(run[0].q, h) && DeliverStep(run[|run| - 1], g', s, m)
    ensures var st := run[|run| - 1].nodes[s];
      g'.nodes[s].panicked <==> WillCommit(st, m) && DiesOn(st, m.instanceId, Winner(st, m))
  {
    hide Next, NodeOk, MsgOk, Highest, HandleM2B, WillCommit, DiesOn, Winner;
    var g := run[|run| - 1];
    RunInv(run, h);
    NodeIs(g, h, s);
    assert MsgOk(g.q, g.proposals, h, m);
    MessageDiesIff(g, h, g.nodes[s], m);
    assert g'.nodes[s] == HandleM2B(g.nodes[s], m).st;
  }

  /** The same for a client's proposal, which may complete a set by the replica's own message. */
  lemma ProposerDiesIff(run: seq<Global>, h: nat, g': Global, s: nat, c: CommandId)
    requires IsRun(run) && Highest(run[0].q, h) && ProposeStep(run[|run| - 1], g', s, c)
    ensures var g := run[|run| - 1];
      var st1, m := Proposed(g.nodes[s], c, g.cmdOf(c)), ProposalMsg(g.nodes[s], c);
      SetsOk(st1) && (g'.nodes[s].panicked <==> WillCommit(st1, m) && DiesOn(st1, m.instanceId, Winner(st1, m)))
  {
    hide Next, NodeOk, MsgOk, Highest, HandleM2B, WillCommit, DiesOn, Winner, Proposed, ProposalMsg;
    var g := run[|run| - 1];
    RunInv(run, h);
    NodeIs(g, h, s);
    ProposedOk(g, g', h, g.nodes[s], c);
    QuorumIs(g', h, Proposed(g.nodes[s], c, g.cmdOf(c)));
    MessageDiesIff(g', h, Proposed(g.nodes[s], c, g.cmdOf(c)), ProposalMsg(g.nodes[s], c));
  }
}
