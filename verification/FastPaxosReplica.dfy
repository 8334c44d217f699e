/** One Fast Paxos replica: its fields and message handlers, statement by statement
    (fastpaxos/fastpaxos.go). */
module FastPaxosReplica {
  import opened State
  import opened CommandIds
  import opened Options
  import opened Quorum
  import opened MsgSet
  import opened FastPaxosSpec

  class Replica {
    const Id: nat
    const defaultFastQuorum: QuorumI
    const State: KVState
    var next: nat
    var cmds: map<CommandId, Command>
    var delivered: set<CommandId>
    var instances: map<nat, Inst>
    var lastExecuted: int
    /** Every message sent to all others so far. */
    var sent: seq<M2B>
    /** The commands executed so far. */
    var executed: seq<CommandId>
    /** The process died on a command that it did not know. */
    var panicked: bool

    constructor (id: nat, q: QuorumI, st: KVState)
      ensures Abs() == RState(id, q, 0, map[], {}, map[], -1, st.Store, [], false) && sent == [] && Known()
      ensures State == st
    {
      Id, defaultFastQuorum, State := id, q, st;
      next, lastExecuted, panicked := 0, -1, false;
      cmds, delivered, instances := map[], {}, map[];
      sent, executed := [], [];
    }

    function Abs(): RState
      reads this, State
    {
      RState(Id, defaultFastQuorum, next, cmds, delivered, instances, lastExecuted, State.Store, executed, panicked)
    }

    /** The commands that clients sent here can be executed. */
    ghost predicate Known()
      reads this`cmds
    {
      forall c :: c in cmds ==> WellFormed(cmds[c])
    }

    method GetInstance(i: nat) returns (inst: Inst)
      modifies this`instances
      ensures inst == FastPaxosSpec.GetInstance(old(Abs()), i)
      ensures instances == old(instances)[i := inst]
    {
      if i !in instances {
        instances := instances[i := NewInst()];
      }
      inst := instances[i];
    }

    method HandleProposal(cmdId: CommandId, command: Command)
      requires SetsOk(Abs()) && Known() && WellFormed(command) && !panicked
      modifies this, State
      ensures Known()
      ensures var o := FastPaxosSpec.HandleProposal(old(Abs()), cmdId, command);
        Abs() == o.st && sent == old(sent) + o.out
    {
      hide FastPaxosSpec.HandleM2B, SetOk;
      ghost var st := Abs();
      cmds := cmds[cmdId := command];
      var i := GetInstance(next);
      next := next + 1;
      i := i.(value := cmdId);
      instances := instances[next - 1 := i];
      var m2b := M2B(i.value, i.ballot, i.cballot, Id, next - 1);
      SendToAll(m2b);
      assert Abs() == Proposed(st, cmdId, command) && m2b == ProposalMsg(st, cmdId);
      HandleM2B(m2b);
    }

    method SendToAll(m: M2B)
      modifies this`sent
      ensures sent == old(sent) + [m]
    {
      sent := sent + [m];
    }

    method HandleM2B(m: M2B)
      requires SetsOk(Abs()) && Known() && !panicked
      modifies this, State
      ensures Known()
      ensures var o := FastPaxosSpec.HandleM2B(old(Abs()), m);
        Abs() == o.st && sent == old(sent) + o.out
      decreases BallotsFrom(Abs(), m.instanceId, m.ballot), 1
    {
      hide AddTo, Recover, FastPaxosSpec.Commit, SetOk;
      ghost var st := Abs();
      JoinKeepsSets(st, m);
      var i := GetInstance(m.instanceId);
      var s := GetM2bSet(i, m.ballot);
      ghost var joined := AddTo(defaultFastQuorum, AcceptAll(), s, m.replica, false, m);
      SetInPlace(st, m.instanceId, m.ballot);
      var complete;
      s, complete := Add(s, m);
      instances := instances[m.instanceId := i.(m2bSets := i.m2bSets[m.ballot := s])];
      assert Abs() == Join(st, m);
      if complete {
        CompleteHasSender(st, m);
        HandleM2Bs(st, m);
      }
    }

    /** MsgSet.Add, on the contents of a set without a leader. */
    method Add(s: Replies<M2B>, m: M2B) returns (s': Replies<M2B>, complete: bool)
      requires s.leaderMsg.None?
      ensures s' == AddTo(defaultFastQuorum, AcceptAll(), s, m.replica, false, m)
      ensures complete <==> Calls(defaultFastQuorum, AcceptAll(), s, m.replica, false, m)
    {
      if !defaultFastQuorum.Contains(m.replica) {
        return s, false;
      }
      s' := s.(msgs := s.msgs[m.replica := m]);
      complete := |s'.msgs| >= defaultFastQuorum.Size();
    }

    /** What the handler of a complete set does; m is the message that completed it. */
    method HandleM2Bs(ghost before: RState, m: M2B)
      requires SetsOk(before) && SetsOk(Abs()) && Abs() == Join(before, m) && Known() && !panicked
      requires m.instanceId in instances && m.ballot in instances[m.instanceId].m2bSets
      requires m.replica in instances[m.instanceId].m2bSets[m.ballot].msgs
      requires instances[m.instanceId].m2bSets[m.ballot].msgs[m.replica] == m
      modifies this, State
      ensures Known()
      ensures var o := AfterComplete(before, m);
        Abs() == o.st && sent == old(sent) + o.out
      decreases BallotsFrom(before, m.instanceId, m.ballot), 0
    {
      hide Recover, FastPaxosSpec.Commit, SetOk, FastPaxosSpec.HandleM2B, AddTo, BallotsFrom;
      var id, msgs := m.instanceId, instances[m.instanceId].m2bSets[m.ballot].msgs;
      var commit, value := SameValue(msgs, m);
      if commit {
        Commit(id, value);
      } else {
        SetInPlace(Abs(), id, m.ballot);
        var maxV := FindLast(msgs);
        LastIsLastOf(Abs(), id, m.ballot, maxV);
        if instances[id].ballot != maxV.ballot {
          return;
        }
        RecoveryShrinks(before, m);
        RecoverIs(Abs(), id, m.ballot);
        var inst := instances[id].(value := maxV.cmdId);
        inst := AdvanceBallot(inst, maxV.ballot + 1);
        instances := instances[id := inst];
        var m2b := M2B(inst.value, inst.ballot, inst.cballot, Id, id);
        SendToAll(m2b);
        HandleM2B(m2b);
      }
    }

    /** The loop over the messages of a complete set, in any order; value is that of the first. */
    method SameValue(msgs: map<nat, M2B>, m: M2B) returns (commit: bool, value: CommandId)
      requires m.replica in msgs && msgs[m.replica] == m
      ensures commit <==> AllEqual(msgs)
      ensures commit ==> value == m.cmdId
    {
      var left := msgs.Keys;
      var first :| first in left;
      value, commit := msgs[first].cmdId, true;
      while left != {}
        invariant left <= msgs.Keys
        invariant commit <==> forall r :: r in msgs && r !in left ==> msgs[r].cmdId == value
        decreases left
      {
        var r :| r in left;
        commit := commit && value == msgs[r].cmdId;
        left := left - {r};
      }
      assert commit ==> msgs[m.replica].cmdId == value;
      assert AllEqual(msgs) ==> forall r :: r in msgs ==> msgs[r].cmdId == msgs[first].cmdId;
    }

    /** The last message of the sorted list. */
    method FindLast(msgs: map<nat, M2B>) returns (maxV: M2B)
      requires msgs.Keys != {} && forall o :: o in msgs ==> msgs[o].replica == o
      ensures maxV.replica in msgs && maxV == msgs[maxV.replica] && IsLast(msgs, maxV.replica)
    {
      var left := msgs.Keys;
      var r :| r in left;
      maxV := msgs[r];
      while left != {}
        invariant left <= msgs.Keys
        invariant maxV.replica in msgs && maxV == msgs[maxV.replica]
        invariant forall o :: o in msgs && o !in left && o != maxV.replica ==> Less(msgs[o], maxV)
        decreases left
      {
        r :| r in left;
        if Less(maxV, msgs[r]) {
          maxV := msgs[r];
        }
        left := left - {r};
      }
    }

    method Commit(i: nat, v: CommandId)
      requires lastExecuted >= -1 && Known() && !panicked
      modifies this`instances, this`lastExecuted, this`delivered, this`executed, this`panicked, State
      ensures Abs() == FastPaxosSpec.Commit(old(Abs()), i, v)
    {
      hide Apply, SetOk, ExecuteFrom, Perform, CommittedAbove;
      ghost var st := Abs();
      var inst := GetInstance(i);
      instances := instances[i := inst.(value := v, committed := true)];
      ghost var goal := ExecuteFrom(Abs());
      CommitIs(st, i, v, Abs());
      NewInstanceIsNothing(Abs(), lastExecuted + 1);
      inst := GetInstance(lastExecuted + 1);
      while inst.committed
        invariant lastExecuted >= -1 && !panicked
        invariant lastExecuted + 1 in instances && inst == instances[lastExecuted + 1]
        invariant ExecuteFrom(Abs()) == goal && Known()
        decreases CommittedAbove(Abs())
      {
        ghost var st, k := Abs(), lastExecuted + 1;
        ExecuteFromUnfolds(st);
        PerformOn(inst.value);
        if panicked {
          return;
        }
        NewInstanceIsNothing(Abs(), lastExecuted + 1);
        inst := GetInstance(lastExecuted + 1);
      }
      ExecuteFromUnfolds(Abs());
    }

    /** One round of the loop of commit. */
    method PerformOn(v: CommandId)
      requires Known() && !panicked && lastExecuted >= -1
      modifies this`lastExecuted, this`delivered, this`executed, this`panicked, State
      ensures Abs() == Perform(old(Abs()), old(lastExecuted) + 1, v)
    {
      if v !in delivered {
        delivered := delivered + {v};
        if v !in cmds {
          panicked := true;
          return;
        }
        var _ := State.Execute(cmds[v]);
        executed := executed + [v];
      }
      lastExecuted := lastExecuted + 1;
    }
  }

  lemma CommitIs(st: RState, i: nat, v: CommandId, st1: RState)
    requires st.lastExecuted >= -1
    requires st1 == st.(instances := st.instances[i := FastPaxosSpec.GetInstance(st, i)]
                                                 [i := FastPaxosSpec.GetInstance(st, i).(value := v, committed := true)])
    ensures FastPaxosSpec.Commit(st, i, v) == ExecuteFrom(st1)
  {
    hide ExecuteFrom;
    assert st1 == Put(st, i, FastPaxosSpec.GetInstance(st, i).(value := v, committed := true));
  }

  /** ExecuteFrom when the instance it looks at is there. */
  lemma ExecuteFromUnfolds(st: RState)
    requires st.lastExecuted >= -1 && st.lastExecuted + 1 in st.instances
    ensures var k: nat := st.lastExecuted + 1;
      var inst := st.instances[k];
      if !inst.committed then ExecuteFrom(st) == st
      else
        var st1 := Perform(st, k, inst.value);
        st1.lastExecuted >= -1
        && ExecuteFrom(st) == (if st1.panicked then st1 else ExecuteFrom(st1))
        && (!st1.panicked && !st.panicked ==> CommittedAbove(st1) < CommittedAbove(st))
  {
    var k: nat := st.lastExecuted + 1;
    assert Put(st, k, st.instances[k]) == st;
    hide Apply;
    if st.instances[k].committed {
      var st1 := Perform(st, k, st.instances[k].value);
      assert k in CommittedAbove(st);
      assert st1.lastExecuted == k ==> k !in CommittedAbove(st1);
    }
  }

  /** The part of FastPaxosSpec.HandleM2B that follows when the set is complete. */
  ghost function AfterComplete(before: RState, m: M2B): Outcome
    requires SetsOk(before) && SetsOk(Join(before, m))
    requires m.instanceId in Join(before, m).instances
    requires m.ballot in Join(before, m).instances[m.instanceId].m2bSets
    requires m.replica in Join(before, m).instances[m.instanceId].m2bSets[m.ballot].msgs
  {
    var i, b, st1 := m.instanceId, m.ballot, Join(before, m);
    if AllEqual(st1.instances[i].m2bSets[b].msgs) then Outcome(FastPaxosSpec.Commit(st1, i, m.cmdId), [])
    else if st1.instances[i].ballot != b then Outcome(st1, [])
    else
      RecoveryShrinks(before, m);
      var (st2, m2b) := Recover(st1, i, b);
      var o := FastPaxosSpec.HandleM2B(st2, m2b);
      Outcome(o.st, [m2b] + o.out)
  }

  lemma CompleteHasSender(st: RState, m: M2B)
    requires SetsOk(st)
    requires Calls(st.quorum, AcceptAll(), GetM2bSet(FastPaxosSpec.GetInstance(st, m.instanceId), m.ballot), m.replica, false, m)
    ensures m.instanceId in Join(st, m).instances && m.ballot in Join(st, m).instances[m.instanceId].m2bSets
    ensures m.replica in Join(st, m).instances[m.instanceId].m2bSets[m.ballot].msgs
    ensures Join(st, m).instances[m.instanceId].m2bSets[m.ballot].msgs[m.replica] == m
  {
  }

  lemma LastIsLastOf(st: RState, i: nat, b: int, maxV: M2B)
    requires SetsOk(st) && i in st.instances && b in st.instances[i].m2bSets
    requires maxV.replica in st.instances[i].m2bSets[b].msgs && maxV == st.instances[i].m2bSets[b].msgs[maxV.replica]
    requires IsLast(st.instances[i].m2bSets[b].msgs, maxV.replica)
    ensures var msgs := st.instances[i].m2bSets[b].msgs;
      msgs.Keys != {} && (forall o :: o in msgs ==> msgs[o].replica == o) && maxV == msgs[LastOf(msgs)] && maxV.ballot == b
  {
    var msgs := st.instances[i].m2bSets[b].msgs;
    assert SetOk(st.instances[i].m2bSets[b], i, b);
    var last := LastOf(msgs);
    OneLast(msgs, last, maxV.replica);
  }

  lemma OneLast(msgs: map<nat, M2B>, a: nat, b: nat)
    requires IsLast(msgs, a) && IsLast(msgs, b) && forall o :: o in msgs ==> msgs[o].replica == o
    ensures a == b
  {
  }

  lemma SetInPlace(st: RState, i: nat, b: int)
    requires SetsOk(st)
    ensures var s := GetM2bSet(FastPaxosSpec.GetInstance(st, i), b);
      s.leaderMsg.None? && forall o :: o in s.msgs ==> s.msgs[o].replica == o
  {
  }

  lemma RecoverIs(st: RState, i: nat, b: int)
    requires SetsOk(st) && i in st.instances && b in st.instances[i].m2bSets
    requires st.instances[i].m2bSets[b].msgs.Keys != {}
    requires forall o :: o in st.instances[i].m2bSets[b].msgs ==> st.instances[i].m2bSets[b].msgs[o].replica == o
    ensures var maxV := st.instances[i].m2bSets[b].msgs[LastOf(st.instances[i].m2bSets[b].msgs)];
      var inst := AdvanceBallot(st.instances[i].(value := maxV.cmdId), maxV.ballot + 1);
      Recover(st, i, b) == (Put(st, i, inst), M2B(inst.value, inst.ballot, inst.cballot, st.id, i))
  {
  }

  lemma SameCommitted(st: RState, k: nat)
    ensures CommittedAbove(Put(st, k, FastPaxosSpec.GetInstance(st, k))) == CommittedAbove(st)
  {
  }

  /** Creating an empty instance where the loop looks next changes nothing that it does. */
  lemma NewInstanceIsNothing(st: RState, k: nat)
    requires st.lastExecuted >= -1 && k == st.lastExecuted + 1
    ensures ExecuteFrom(Put(st, k, FastPaxosSpec.GetInstance(st, k))) == ExecuteFrom(st)
    ensures CommittedAbove(Put(st, k, FastPaxosSpec.GetInstance(st, k))) == CommittedAbove(st)
  {
    hide ExecuteFrom, Perform, CommittedAbove;
    var st0 := Put(st, k, FastPaxosSpec.GetInstance(st, k));
    SameCommitted(st, k);
    PutTwice(st, k, FastPaxosSpec.GetInstance(st, k));
    ExecuteFromIs(st);
    ExecuteFromIs(st0);
  }

  lemma PutTwice(st: RState, k: nat, inst: Inst)
    ensures Put(Put(st, k, inst), k, inst) == Put(st, k, inst)
    ensures FastPaxosSpec.GetInstance(Put(st, k, inst), k) == inst
  {
  }

  lemma ExecuteFromIs(st: RState)
    requires st.lastExecuted >= -1
    ensures var k: nat := st.lastExecuted + 1;
      var inst := FastPaxosSpec.GetInstance(st, k);
      var st0 := Put(st, k, inst);
      var st1 := Perform(st0, k, inst.value);
      if !inst.committed then ExecuteFrom(st) == st0
      else st1.lastExecuted >= -1 && ExecuteFrom(st) == if st1.panicked then st1 else ExecuteFrom(st1)
  {
    hide Apply;
  }
}
