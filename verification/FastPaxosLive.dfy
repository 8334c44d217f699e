/** When every message of the members has arrived at every member, everything that all members have
    proposed for is committed and executed, collisions included. */
module FastPaxosLive {
  import opened State
  import opened CommandIds
  import opened Options
  import opened Quorum
  import opened MsgSet
  import opened FastPaxosSpec
  import opened FastPaxos

  /** All members propose the same command for instance i. */
  ghost predicate Agree(q: set<nat>, ps: seq<seq<CommandId>>, i: nat) {
    Everyone(q, ps, i) && forall s, r :: s in q && r in q ==> ps[s][i] == ps[r][i]
  }

  ghost predicate Full(q: set<nat>, inst: Inst, b: int) {
    b in inst.m2bSets && inst.m2bSets[b].msgs.Keys == q
  }

  /** A complete set has been acted on. */
  ghost predicate Done(q: set<nat>, inst: Inst) {
    && (Full(q, inst, 0) ==> inst.committed || inst.ballot == 1)
    && (Full(q, inst, 1) ==> inst.committed)
  }

  ghost predicate AllSent(inst: Inst, sent: set<M2B>) {
    forall b, r :: b in inst.m2bSets && r in inst.m2bSets[b].msgs ==> inst.m2bSets[b].msgs[r] in sent
  }

  ghost predicate Announced(sent: set<M2B>, s: nat, i: nat, b: int) {
    exists m :: m in sent && m.replica == s && m.instanceId == i && m.ballot == b
  }

  ghost predicate InstLive(q: set<nat>, ps: seq<seq<CommandId>>, s: nat, i: nat, inst: Inst, sent: set<M2B>) {
    && Done(q, inst) && AllSent(inst, sent)
    && (inst.ballot == 1 ==> !Agree(q, ps, i) && Announced(sent, s, i, 1))
    && (inst.committed ==> Agree(q, ps, i) || Full(q, inst, 1))
  }

  ghost predicate NodeLive(g: Global, st: RState, sent: set<M2B>) {
    && (forall i :: i in st.instances ==> InstLive(g.q, g.proposals, st.id, i, st.instances[i], sent))
    && st.lastExecuted >= -1 && (!st.panicked ==> !GetInstance(st, st.lastExecuted + 1).committed)
  }

  /** The same, while commit has not yet looked at what to execute next. */
  ghost predicate InstancesLive(g: Global, st: RState, sent: set<M2B>) {
    forall i :: i in st.instances ==> InstLive(g.q, g.proposals, st.id, i, st.instances[i], sent)
  }

  ghost predicate LiveInv(g: Global) {
    && (forall s :: 0 <= s < |g.nodes| ==> NodeLive(g, g.nodes[s], g.sent))
    && forall s, i :: s in g.q && s < |g.proposals| && 0 <= i < |g.proposals[s]| ==> Announced(g.sent, s, i, 0)
  }

  // ---------------------------------------------------------------- execution

  lemma {:induction false} ExecuteFromLive(g: Global, st: RState, sent: set<M2B>)
    requires st.lastExecuted >= -1 && InstancesLive(g, st, sent) && g.q != {} && !st.panicked
    ensures NodeLive(g, ExecuteFrom(st), sent)
    decreases CommittedAbove(st)
  {
    hide InstLive;
    var k: nat := st.lastExecuted + 1;
    var inst := GetInstance(st, k);
    var st0 := Put(st, k, inst);
    NewInstLive(g, st.id, k, sent);
    if inst.committed {
      var st1 := Perform(st0, k, inst.value);
      assert k in CommittedAbove(st);
      if !st1.panicked {
        ExecuteFromLive(g, st1, sent);
      }
    }
  }

  lemma NewInstLive(g: Global, s: nat, i: nat, sent: set<M2B>)
    requires g.q != {}
    ensures InstLive(g.q, g.proposals, s, i, NewInst(), sent)
  {
  }

  // ---------------------------------------------------------------- handlers

  lemma InstMore(q: set<nat>, ps: seq<seq<CommandId>>, s: nat, i: nat, inst: Inst, sent: set<M2B>, more: set<M2B>)
    requires InstLive(q, ps, s, i, inst, sent) && sent <= more
    ensures InstLive(q, ps, s, i, inst, more)
  {
  }

  lemma NodeMore(g: Global, st: RState, sent: set<M2B>, more: set<M2B>)
    requires sent <= more
    ensures NodeLive(g, st, sent) ==> NodeLive(g, st, more)
    ensures InstancesLive(g, st, sent) ==> InstancesLive(g, st, more)
  {
    hide InstLive;
    forall i | i in st.instances ensures InstLive(g.q, g.proposals, st.id, i, st.instances[i], sent) ==>
                                          InstLive(g.q, g.proposals, st.id, i, st.instances[i], more) {
      if InstLive(g.q, g.proposals, st.id, i, st.instances[i], sent) {
        InstMore(g.q, g.proposals, st.id, i, st.instances[i], sent, more);
      }
    }
  }

  /** The instance of an arriving message, before the complete set is acted on. */
  ghost predicate Joined(q: set<nat>, ps: seq<seq<CommandId>>, s: nat, i: nat, inst: Inst, inst': Inst, sent: set<M2B>) {
    && inst'.ballot == inst.ballot && inst'.committed == inst.committed && AllSent(inst', sent)
    && (inst.ballot == 1 ==> !Agree(q, ps, i) && Announced(sent, s, i, 1))
    && (inst.committed ==> Agree(q, ps, i) || Full(q, inst', 1))
  }

  lemma JoinLive(g: Global, h: nat, st: RState, m: M2B, sent: set<M2B>)
    requires NodeOk(g, h, st) && NodeLive(g, st, sent) && m in sent && g.q != {}
    ensures m.instanceId in Join(st, m).instances
    ensures Joined(g.q, g.proposals, st.id, m.instanceId, GetInstance(st, m.instanceId),
                   Join(st, m).instances[m.instanceId], sent)
    ensures Join(st, m).instances[m.instanceId].committed == GetInstance(st, m.instanceId).committed
    ensures !Calls(st.quorum, AcceptAll(), GetM2bSet(GetInstance(st, m.instanceId), m.ballot), m.replica, false, m) ==>
              NodeLive(g, Join(st, m), sent)
  {
    hide NodeOk, Everyone, MsgOk, SetsOk, Agree, AddTo;
    var i, b := m.instanceId, m.ballot;
    var inst := GetInstance(st, i);
    var before := GetM2bSet(inst, b);
    var inst' := Join(st, m).instances[i];
    NewInstLive(g, st.id, i, sent);
    assert InstLive(g.q, g.proposals, st.id, i, inst, sent);
    CurrentOk(g, h, st, i);
    QuorumIs(g, h, st);
    JoinedInst(g.q, st.id, m, inst, inst', before);
    forall x | x != i && x in st.instances ensures InstLive(g.q, g.proposals, st.id, x, Join(st, m).instances[x], sent) {
    }
  }

  lemma JoinedInst(q: set<nat>, s: nat, m: M2B, inst: Inst, inst': Inst, before: Replies<M2B>)
    requires before == GetM2bSet(inst, m.ballot) && before.leaderMsg.None?
    requires inst' == inst.(m2bSets := inst.m2bSets[m.ballot := AddTo(QuorumI.Fixed(q), AcceptAll(), before, m.replica, false, m)])
    requires forall b :: b in inst.m2bSets ==> inst.m2bSets[b].msgs.Keys <= q
    requires q != {}
    ensures forall b :: Full(q, inst, b) ==> Full(q, inst', b)
    ensures !Calls(QuorumI.Fixed(q), AcceptAll(), before, m.replica, false, m) ==>
              forall b :: Full(q, inst', b) ==> Full(q, inst, b)
    ensures forall b, r :: b in inst'.m2bSets && r in inst'.m2bSets[b].msgs ==>
              inst'.m2bSets[b].msgs[r] == m
              || (b in inst.m2bSets && r in inst.m2bSets[b].msgs && inst'.m2bSets[b].msgs[r] == inst.m2bSets[b].msgs[r])
  {
    var after := AddTo(QuorumI.Fixed(q), AcceptAll(), before, m.replica, false, m);
    if m.replica in q {
      assert after.msgs.Keys == before.msgs.Keys + {m.replica};
      if before.msgs.Keys == q {
        assert after.msgs.Keys == q;
      }
    }
  }

  /** One instance changes, and is live again; it is committed as before. */
  lemma PutLive(g: Global, st: RState, st': RState, i: nat, inst: Inst, sent: set<M2B>)
    requires NodeLive(g, st, sent) && InstLive(g.q, g.proposals, st.id, i, inst, sent)
    requires st'.instances == st.instances[i := inst] && st'.id == st.id
    requires st'.lastExecuted == st.lastExecuted && st'.panicked == st.panicked
    requires inst.committed == GetInstance(st, i).committed
    ensures NodeLive(g, st', sent)
  {
    hide InstLive;
  }

  lemma OtherInstances(g: Global, st: RState, m: M2B, sent: set<M2B>)
    requires NodeLive(g, st, sent)
    ensures forall x :: x in Join(st, m).instances && x != m.instanceId ==>
              InstLive(g.q, g.proposals, st.id, x, Join(st, m).instances[x], sent)
    ensures Join(st, m).id == st.id && Join(st, m).lastExecuted == st.lastExecuted >= -1
    ensures Join(st, m).panicked == st.panicked
  {
    hide InstLive;
  }

  /** The proposals of the members are what the complete set of ballot 0 holds. */
  lemma FullSetAgrees(g: Global, h: nat, st: RState, i: nat)
    requires NodeOk(g, h, st) && i in st.instances && 0 in st.instances[i].m2bSets
    requires st.instances[i].m2bSets[0].msgs.Keys == g.q
    ensures Agree(g.q, g.proposals, i) <==> AllEqual(st.instances[i].m2bSets[0].msgs)
  {
    var msgs := st.instances[i].m2bSets[0].msgs;
    assert SetOk(st.instances[i].m2bSets[0], i, 0);
    assert SetMsgsOk(g.q, g.proposals, h, st.instances[i].m2bSets[0]);
    forall r | r in g.q
      ensures r < |g.proposals| && i < |g.proposals[r]| && msgs[r].cmdId == g.proposals[r][i]
    {
      assert MsgOk(g.q, g.proposals, h, msgs[r]);
    }
  }

  lemma OtherSetSame(st: RState, m: M2B, q: set<nat>)
    requires m.ballot == 0
    ensures m.instanceId in Join(st, m).instances
    ensures Full(q, Join(st, m).instances[m.instanceId], 1) <==> Full(q, GetInstance(st, m.instanceId), 1)
  {
    hide AddTo;
  }

  lemma {:induction false} HandleLive(g: Global, h: nat, st: RState, m: M2B, sent: set<M2B>)
    requires NodeOk(g, h, st) && NodeLive(g, st, sent) && !st.panicked && MsgOk(g.q, g.proposals, h, m) && m in sent
    requires Highest(g.q, h) && forall s :: s in g.q ==> s < |g.proposals|
    ensures NodeLive(g, HandleM2B(st, m).st, sent + SetOf(HandleM2B(st, m).out))
    decreases BallotsFrom(st, m.instanceId, m.ballot)
  {
    hide NodeOk, NodeLive, MsgOk, Everyone, InstOk, ExecOk, AddTo, SetsOk, Calls, IsLast, AllEqual, BallotsFrom, Recover,
      GetM2bSet, GetInstance, ExecuteFrom, Agree, Joined, Full, InstLive, Join;
    QuorumIs(g, h, st);
    var i, b := m.instanceId, m.ballot;
    var st1 := Join(st, m);
    JoinOk(g, h, st, m);
    JoinLive(g, h, st, m, sent);
    if Calls(st.quorum, AcceptAll(), GetM2bSet(GetInstance(st, i), b), m.replica, false, m) {
      CompleteIsEveryone(g, h, st, m);
      CompleteChooses(g, h, st1, i, b);
      if AllEqual(st1.instances[i].m2bSets[b].msgs) {
        AgreedLive(g, h, st, m, sent);
      } else if st1.instances[i].ballot != b {
        StuckLive(g, h, st, m, sent);
      } else {
        RecoverOk(g, h, st1, i, b);
        RecoveryShrinks(st, m);
        var (st2, m2b) := Recover(st1, i, b);
        RecoverLive(g, h, st, m, sent);
        HandleLive(g, h, st2, m2b, sent + {m2b});
        assert sent + SetOf(HandleM2B(st, m).out) == sent + {m2b} + SetOf(HandleM2B(st2, m2b).out);
      }
    }
    assert SetOf([]) == {};
    assert sent + {} == sent;
  }

  /** A complete set of one mind: the instance is committed. */
  lemma AgreedLive(g: Global, h: nat, st: RState, m: M2B, sent: set<M2B>)
    requires NodeOk(g, h, st) && NodeLive(g, st, sent) && !st.panicked && m in sent && NodeOk(g, h, Join(st, m))
    requires Highest(g.q, h) && MsgOk(g.q, g.proposals, h, m) && forall s :: s in g.q ==> s < |g.proposals|
    requires m.instanceId in Join(st, m).instances && m.ballot in Join(st, m).instances[m.instanceId].m2bSets
    requires Join(st, m).instances[m.instanceId].m2bSets[m.ballot].msgs.Keys == g.q
    requires AllEqual(Join(st, m).instances[m.instanceId].m2bSets[m.ballot].msgs)
    ensures Join(st, m).lastExecuted >= -1 && NodeLive(g, Commit(Join(st, m), m.instanceId, m.cmdId), sent)
  {
    var st1 := Join(st, m);
    var i, inst := m.instanceId, st1.instances[m.instanceId];
    JoinLive(g, h, st, m, sent);
    CompleteChooses(g, h, st1, i, m.ballot);
    OtherInstances(g, st, m, sent);
    if m.ballot == 0 {
      FullSetAgrees(g, h, st1, i);
    }
    hide NodeOk, NodeLive, MsgOk, Everyone, Agree, InstLive, AllEqual, Join, ExecuteFrom, AllSent;
    assert GetInstance(st1, i) == inst;
    CommittedLive(g, st1, i, inst.(value := m.cmdId, committed := true), sent);
  }

  lemma CommittedLive(g: Global, st: RState, i: nat, inst: Inst, sent: set<M2B>)
    requires st.lastExecuted >= -1 && !st.panicked && g.q != {} && InstLive(g.q, g.proposals, st.id, i, inst, sent)
    requires forall x :: x in st.instances && x != i ==> InstLive(g.q, g.proposals, st.id, x, st.instances[x], sent)
    ensures NodeLive(g, ExecuteFrom(Put(st, i, inst)), sent)
  {
    hide InstLive;
    ExecuteFromLive(g, Put(st, i, inst), sent);
  }

  /** The set of ballot 0 is completed again after the recovery. */
  lemma StuckLive(g: Global, h: nat, st: RState, m: M2B, sent: set<M2B>)
    requires NodeOk(g, h, st) && NodeLive(g, st, sent) && m in sent && NodeOk(g, h, Join(st, m)) && Highest(g.q, h)
    requires m.ballot == 0 && m.instanceId in Join(st, m).instances
    requires Join(st, m).instances[m.instanceId].ballot != 0
    ensures NodeLive(g, Join(st, m), sent)
  {
    var st1 := Join(st, m);
    var i, inst := m.instanceId, st1.instances[m.instanceId];
    JoinLive(g, h, st, m, sent);
    CurrentOk(g, h, st1, i);
    OtherSetSame(st, m, g.q);
    NewInstLive(g, st.id, i, sent);
    assert InstLive(g.q, g.proposals, st.id, i, GetInstance(st, i), sent);
    hide NodeOk, NodeLive, MsgOk, Everyone, Agree, AddTo, SetsOk, AllSent, SetMsgsOk, Full;
    assert InstLive(g.q, g.proposals, st.id, i, inst, sent);
    PutLive(g, st, st1, i, inst, sent);
  }

  lemma RecoverLive(g: Global, h: nat, st: RState, m: M2B, sent: set<M2B>)
    requires NodeOk(g, h, st) && NodeLive(g, st, sent) && m in sent && NodeOk(g, h, Join(st, m)) && Highest(g.q, h)
    requires m.ballot == 0 && m.instanceId in Join(st, m).instances && 0 in Join(st, m).instances[m.instanceId].m2bSets
    requires Join(st, m).instances[m.instanceId].m2bSets[0].msgs.Keys == g.q
    requires !AllEqual(Join(st, m).instances[m.instanceId].m2bSets[0].msgs)
    requires Join(st, m).instances[m.instanceId].ballot == 0 && SetsOk(Join(st, m))
    ensures g.q != {}
    ensures var (st2, m2b) := Recover(Join(st, m), m.instanceId, 0);
      NodeLive(g, st2, sent + {m2b})
  {
    hide *;
    var st1, i := Join(st, m), m.instanceId;
    CurrentLive(g, h, st, i, sent);
    JoinLive(g, h, st, m, sent);
    FullSetAgrees(g, h, st1, i);
    OtherSetSame(st, m, g.q);
    RecoverShape(st, m);
    var (st2, m2b) := Recover(st1, i, 0);
    NodeMore(g, st, sent, sent + {m2b});
    RecoveredInst(g, st.id, i, GetInstance(st, i), st1.instances[i], st2.instances[i], sent, m2b);
    PutLive(g, st, st2, i, st2.instances[i], sent + {m2b});
  }

  lemma CurrentLive(g: Global, h: nat, st: RState, i: nat, sent: set<M2B>)
    requires NodeOk(g, h, st) && NodeLive(g, st, sent) && Highest(g.q, h)
    ensures InstLive(g.q, g.proposals, st.id, i, GetInstance(st, i), sent) && g.q != {}
  {
    hide InstLive;
    NewInstLive(g, st.id, i, sent);
  }

  lemma RecoverShape(st: RState, m: M2B)
    requires SetsOk(Join(st, m)) && m.instanceId in Join(st, m).instances
    requires m.ballot in Join(st, m).instances[m.instanceId].m2bSets
    requires Join(st, m).instances[m.instanceId].m2bSets[m.ballot].msgs.Keys != {}
    requires Join(st, m).instances[m.instanceId].ballot == m.ballot
    ensures var (st2, m2b) := Recover(Join(st, m), m.instanceId, m.ballot);
      var inst := Join(st, m).instances[m.instanceId];
      && m.instanceId in st2.instances && st2.instances == st.instances[m.instanceId := st2.instances[m.instanceId]]
      && st2.instances[m.instanceId]
           == inst.(value := st2.instances[m.instanceId].value, ballot := m.ballot + 1, cballot := m.ballot + 1)
      && st2.id == st.id && st2.lastExecuted == st.lastExecuted && st2.panicked == st.panicked
      && m2b.replica == st.id && m2b.instanceId == m.instanceId && m2b.ballot == m.ballot + 1
  {
    hide AddTo;
    var msgs := Join(st, m).instances[m.instanceId].m2bSets[m.ballot].msgs;
    assert msgs[LastOf(msgs)].ballot == m.ballot by {
      assert SetOk(Join(st, m).instances[m.instanceId].m2bSets[m.ballot], m.instanceId, m.ballot);
    }
  }

  lemma RecoveredInst(g: Global, s: nat, i: nat, inst: Inst, inst': Inst, inst'': Inst, sent: set<M2B>, m2b: M2B)
    requires InstLive(g.q, g.proposals, s, i, inst, sent)
    requires Joined(g.q, g.proposals, s, i, inst, inst', sent) && !Agree(g.q, g.proposals, i)
    requires Full(g.q, inst', 1) <==> Full(g.q, inst, 1)
    requires inst'' == inst'.(value := inst''.value, ballot := 1, cballot := 1)
    requires m2b.replica == s && m2b.instanceId == i && m2b.ballot == 1
    ensures InstLive(g.q, g.proposals, s, i, inst'', sent + {m2b})
  {
    hide Agree;
    assert m2b in sent + {m2b};
  }

  // ---------------------------------------------------------------- runs

  lemma AgreeExtended(q: set<nat>, ps: seq<seq<CommandId>>, ps': seq<seq<CommandId>>, i: nat)
    requires Extended(ps, ps')
    ensures Agree(q, ps, i) ==> Agree(q, ps', i)
    ensures Everyone(q, ps, i) && Agree(q, ps', i) ==> Agree(q, ps, i)
  {
  }

  lemma NodeLiveExtended(g: Global, g': Global, h: nat, st: RState, sent: set<M2B>)
    requires NodeOk(g, h, st) && NodeLive(g, st, sent) && Extended(g.proposals, g'.proposals) && g'.q == g.q
    ensures NodeLive(g', st, sent)
  {
    hide Agree, Everyone, Full, AllSent, ExecOk, SetMsgsOk;
    forall i | i in st.instances ensures InstLive(g'.q, g'.proposals, st.id, i, st.instances[i], sent) {
      AgreeExtended(g.q, g.proposals, g'.proposals, i);
      assert InstLive(g.q, g.proposals, st.id, i, st.instances[i], sent);
      assert InstOk(g.q, g.proposals, h, st.id, i, st.instances[i]);
    }
  }

  lemma ProposalLive(g: Global, g': Global, h: nat, st: RState, c: CommandId)
    requires NodeOk(g, h, st) && !st.panicked && Highest(g.q, h) && (forall s :: s in g.q ==> s < |g.proposals|)
    requires NodeLive(g, st, g.sent)
    requires g' == g.(nodes := g'.nodes, proposals := g'.proposals, sent := g'.sent)
    requires g'.proposals == g.proposals[st.id := g.proposals[st.id] + [c]]
    requires g'.sent == g.sent + SetOf(HandleProposal(st, c, g.cmdOf(c)).out)
    ensures NodeLive(g', HandleProposal(st, c, g.cmdOf(c)).st, g'.sent)
    ensures st.id in g.q ==> Announced(g'.sent, st.id, st.next, 0)
  {
    hide *;
    var st1, m2b := Proposed(st, c, g.cmdOf(c)), ProposalMsg(st, c);
    ProposalIs(g, h, st, c);
    GrowsOnly(g, g', st, c);
    ProposedOk(g, g', h, st, c);
    NodeLiveExtended(g, g', h, st, g.sent);
    NodeMore(g', st, g.sent, g.sent + {m2b});
    ProposedLive(g', h, st, c, g.cmdOf(c), g.sent + {m2b});
    QuorumIs(g', h, st1);
    HandleLive(g', h, st1, m2b, g.sent + {m2b});
    assert g.sent + {m2b} + SetOf(HandleM2B(st1, m2b).out) == g'.sent;
  }

  lemma GrowsOnly(g: Global, g': Global, st: RState, c: CommandId)
    requires st.id < |g.proposals| && g'.proposals == g.proposals[st.id := g.proposals[st.id] + [c]]
    requires forall s :: s in g.q ==> s < |g.proposals|
    ensures Extended(g.proposals, g'.proposals) && forall s :: s in g.q ==> s < |g'.proposals|
  {
  }

  lemma ProposalIs(g: Global, h: nat, st: RState, c: CommandId)
    requires NodeOk(g, h, st)
    ensures SetsOk(Proposed(st, c, g.cmdOf(c))) && st.id < |g.proposals|
    ensures SetOf(HandleProposal(st, c, g.cmdOf(c)).out)
         == {ProposalMsg(st, c)} + SetOf(HandleM2B(Proposed(st, c, g.cmdOf(c)), ProposalMsg(st, c)).out)
    ensures HandleProposal(st, c, g.cmdOf(c)).st == HandleM2B(Proposed(st, c, g.cmdOf(c)), ProposalMsg(st, c)).st
    ensures st.id in g.q ==> forall sent :: ProposalMsg(st, c) in sent ==> Announced(sent, st.id, st.next, 0)
  {
    hide HandleM2B, InstOk, ExecOk;
    NextIsOpen(g, h, st);
  }

  lemma ProposedLive(g: Global, h: nat, st: RState, c: CommandId, command: Command, sent: set<M2B>)
    requires NodeLive(g, st, sent) && Highest(g.q, h)
    ensures NodeLive(g, Proposed(st, c, command), sent)
  {
    hide Agree, AllSent, Full;
    NewInstLive(g, st.id, st.next, sent);
    var inst := GetInstance(st, st.next);
    assert InstLive(g.q, g.proposals, st.id, st.next, inst, sent);
    SameButValue(g, st.id, st.next, inst, inst.(value := c), sent);
    PutLive(g, st, Proposed(st, c, command), st.next, inst.(value := c), sent);
  }

  lemma SameButValue(g: Global, s: nat, i: nat, inst: Inst, inst': Inst, sent: set<M2B>)
    requires InstLive(g.q, g.proposals, s, i, inst, sent) && inst' == inst.(value := inst'.value)
    ensures InstLive(g.q, g.proposals, s, i, inst', sent)
  {
  }

  lemma ProposeLiveInv(g: Global, g': Global, h: nat, s: nat, c: CommandId)
    requires Inv(g, h) && LiveInv(g) && ProposeStep(g, g', s, c)
    ensures LiveInv(g')
  {
    var st := g.nodes[s];
    assert NodeOk(g, h, st) && st.next == |g.proposals[s]|;
    hide NodeOk, NodeLive, HandleProposal, MsgOk;
    ProposalLive(g, g', h, st, c);
    forall r | 0 <= r < |g'.nodes| ensures NodeLive(g', g'.nodes[r], g'.sent) {
      if r != s {
        NodeLiveExtended(g, g', h, g.nodes[r], g.sent);
        NodeMore(g', g.nodes[r], g.sent, g'.sent);
      }
    }
    forall r, i | r in g'.q && r < |g'.proposals| && 0 <= i < |g'.proposals[r]| ensures Announced(g'.sent, r, i, 0) {
      if r != s || i < |g.proposals[s]| {
        assert Announced(g.sent, r, i, 0);
      }
    }
  }

  lemma DeliverLiveInv(g: Global, g': Global, h: nat, s: nat, m: M2B)
    requires Inv(g, h) && LiveInv(g) && DeliverStep(g, g', s, m)
    ensures LiveInv(g')
  {
    hide NodeOk, NodeLive, HandleM2B, MsgOk;
    HandleLive(g, h, g.nodes[s], m, g.sent);
    forall r | 0 <= r < |g'.nodes| ensures NodeLive(g', g'.nodes[r], g'.sent) {
      NodeMore(g, g.nodes[r], g.sent, g'.sent);
      SameProposals(g, g', g'.nodes[r], g'.sent);
    }
    forall r, i | r in g'.q && r < |g'.proposals| && 0 <= i < |g'.proposals[r]| ensures Announced(g'.sent, r, i, 0) {
      assert Announced(g.sent, r, i, 0);
    }
  }

  lemma SameProposals(g: Global, g': Global, st: RState, sent: set<M2B>)
    requires g'.q == g.q && g'.proposals == g.proposals
    ensures NodeLive(g, st, sent) ==> NodeLive(g', st, sent)
  {
  }

  lemma {:induction false} RunLive(run: seq<Global>, h: nat)
    requires IsRun(run) && Highest(run[0].q, h)
    ensures LiveInv(run[|run| - 1])
    decreases |run|
  {
    hide Inv, LiveInv, Next, Highest;
    if |run| == 1 {
      StartLive(run[0]);
    } else {
      RunInit(run);
      RunLive(run[..|run| - 1], h);
      RunInv(run[..|run| - 1], h);
      StepLive(run[|run| - 2], run[|run| - 1], h);
    }
  }

  lemma StartLive(g: Global)
    requires Init(g)
    ensures LiveInv(g)
  {
  }

  lemma StepLive(g: Global, g': Global, h: nat)
    requires Inv(g, h) && LiveInv(g) && Next(g, g')
    ensures LiveInv(g')
  {
    hide Inv, LiveInv;
    if s, c :| ProposeStep(g, g', s, c) {
      ProposeLiveInv(g, g', h, s, c);
    } else {
      var s, m :| DeliverStep(g, g', s, m);
      DeliverLiveInv(g, g', h, s, m);
    }
  }

  // ---------------------------------------------------------------- progress

  ghost predicate HasReceived(st: RState, m: M2B) {
    m.instanceId in st.instances && m.ballot in st.instances[m.instanceId].m2bSets
    && m.replica in st.instances[m.instanceId].m2bSets[m.ballot].msgs
  }

  /** Every message of a member has reached every member. */
  ghost predicate Settled(g: Global) {
    forall s, m :: s in g.q && s < |g.nodes| && m in g.sent && m.replica in g.q ==> HasReceived(g.nodes[s], m)
  }

  /** If all members have announced something at ballot b, the set of ballot b is full. */
  lemma SettledIsFull(g: Global, h: nat, s: nat, i: nat, b: int)
    requires Inv(g, h) && Settled(g) && s in g.q && s < |g.nodes|
    requires forall r :: r in g.q ==> Announced(g.sent, r, i, b)
    ensures i in g.nodes[s].instances && Full(g.q, g.nodes[s].instances[i], b)
  {
    hide Next;
    forall r | r in g.q
      ensures i in g.nodes[s].instances && b in g.nodes[s].instances[i].m2bSets
      ensures r in g.nodes[s].instances[i].m2bSets[b].msgs
    {
      assert Announced(g.sent, r, i, b);
      var m :| m in g.sent && m.replica == r && m.instanceId == i && m.ballot == b;
      assert HasReceived(g.nodes[s], m);
    }
    assert h in g.q;
    assert NodeOk(g, h, g.nodes[s]);
    assert InstOk(g.q, g.proposals, h, s, i, g.nodes[s].instances[i]);
    assert SetMsgsOk(g.q, g.proposals, h, g.nodes[s].instances[i].m2bSets[b]);
    assert g.nodes[s].instances[i].m2bSets[b].msgs.Keys == g.q;
  }

  /** A member that has not committed has announced ballot 1, and so has everyone else. */
  lemma EveryoneCommits(g: Global, h: nat, s: nat, i: nat)
    requires Inv(g, h) && LiveInv(g) && Settled(g) && s in g.q && Everyone(g.q, g.proposals, i)
    ensures s < |g.nodes| && i in g.nodes[s].instances && g.nodes[s].instances[i].committed
  {
    forall r | r in g.q ensures Announced(g.sent, r, i, 0) {
      assert i < |g.proposals[r]|;
    }
    SettledIsFull(g, h, s, i, 0);
    assert LiveAt(g, s, i);
    if !g.nodes[s].instances[i].committed {
      forall r | r in g.q ensures Announced(g.sent, r, i, 1) {
        SettledIsFull(g, h, r, i, 0);
        RecoveryAnnounced(g, h, s, r, i);
      }
      SettledIsFull(g, h, s, i, 1);
    }
  }

  ghost predicate LiveAt(g: Global, s: nat, i: nat) {
    s < |g.nodes| && i in g.nodes[s].instances
    && InstLive(g.q, g.proposals, g.nodes[s].id, i, g.nodes[s].instances[i], g.sent)
  }

  lemma RecoveryAnnounced(g: Global, h: nat, s: nat, r: nat, i: nat)
    requires Inv(g, h) && LiveInv(g) && s in g.q && r in g.q && s < |g.nodes| && r < |g.nodes|
    requires i in g.nodes[s].instances && Full(g.q, g.nodes[s].instances[i], 0) && !g.nodes[s].instances[i].committed
    requires i in g.nodes[r].instances && Full(g.q, g.nodes[r].instances[i], 0)
    ensures Announced(g.sent, r, i, 1)
  {
    hide Agree, Everyone, ExecOk, MsgOk;
    assert LiveAt(g, s, i) && LiveAt(g, r, i);
    var inst := g.nodes[r].instances[i];
    if inst.ballot != 1 {
      assert inst.committed && Full(g.q, inst, 1);
      assert NodeOk(g, h, g.nodes[r]);
      assert SetOk(inst.m2bSets[1], i, 1);
      assert inst.m2bSets[1].msgs[r] in g.sent;
    }
  }

  /** Once every message has arrived, every member has committed every instance that all members have
      proposed for, whether their proposals collided or not, and has executed it unless it died on a
      command that no client had sent it. */
  lemma SettledRunsCommitEverything(run: seq<Global>, h: nat, s: nat, i: nat)
    requires IsRun(run) && Highest(run[0].q, h) && s in run[0].q
    requires Settled(run[|run| - 1]) && Everyone(run[0].q, run[|run| - 1].proposals, i)
    ensures CommittedAt(run[|run| - 1], s, i)
    ensures s < |run[|run| - 1].nodes| && (!run[|run| - 1].nodes[s].panicked ==> run[|run| - 1].nodes[s].lastExecuted >= i)
  {
    hide Next, Settled;
    var g := run[|run| - 1];
    RunInv(run, h);
    RunLive(run, h);
    EveryoneCommits(g, h, s, i);
    assert NodeLive(g, g.nodes[s], g.sent);
    if !g.nodes[s].panicked && g.nodes[s].lastExecuted < i {
      EveryoneCommits(g, h, s, g.nodes[s].lastExecuted + 1);
      assert false;
    }
  }
}
