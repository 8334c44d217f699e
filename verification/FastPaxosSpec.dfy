/** Fast Paxos with uncoordinated recovery: the handlers of a replica as functions on its state
    (fastpaxos/fastpaxos.go). The class in FastPaxosReplica computes these functions. */
module FastPaxosSpec {
  import opened State
  import opened CommandIds
  import opened Options
  import opened Quorum
  import opened MsgSet

  datatype M2B = M2B(cmdId: CommandId, ballot: int, cballot: int, replica: nat, instanceId: nat)

  /** m2bSets holds the contents of the message set of each ballot. */
  datatype Inst = Inst(value: CommandId, ballot: int, cballot: int, committed: bool, m2bSets: map<int, Replies<M2B>>)

  /** executed lists the commands in the order of their execution; panicked means that the replica died
      on a command it did not know. */
  datatype RState = RState(
    id: nat,
    quorum: QuorumI,
    next: nat,
    cmds: map<CommandId, Command>,
    delivered: set<CommandId>,
    instances: map<nat, Inst>,
    lastExecuted: int,
    store: Store,
    executed: seq<CommandId>,
    panicked: bool)

  datatype Outcome = Outcome(st: RState, out: seq<M2B>)

  const NoMsgs: Replies<M2B> := Replies(map[], None)

  function NewInst(): Inst {
    Inst(CommandId(0, 0), 0, 0, false, map[])
  }

  function GetInstance(st: RState, i: nat): Inst {
    if i in st.instances then st.instances[i] else NewInst()
  }

  function Put(st: RState, i: nat, inst: Inst): RState {
    st.(instances := st.instances[i := inst])
  }

  function GetM2bSet(inst: Inst, ballot: int): Replies<M2B> {
    if ballot in inst.m2bSets then inst.m2bSets[ballot] else NoMsgs
  }

  function AcceptAll(): Accept<M2B> {
    (_, _) => true
  }

  /** Every message lies where it belongs. */
  ghost predicate SetsOk(st: RState) {
    && st.lastExecuted >= -1
    && forall i, b :: i in st.instances && b in st.instances[i].m2bSets ==> SetOk(st.instances[i].m2bSets[b], i, b)
  }

  ghost predicate SetOk(s: Replies<M2B>, i: nat, b: int) {
    s.leaderMsg.None?
    && forall r :: r in s.msgs ==> s.msgs[r].replica == r && s.msgs[r].ballot == b && s.msgs[r].instanceId == i
  }

  // ---------------------------------------------------------------- execution

  ghost function CommittedAbove(st: RState): set<nat> {
    set i | i in st.instances && st.instances[i].committed && i > st.lastExecuted
  }

  /** The body of the loop of commit, for the value v of instance k: v was executed before, or is not
      known here, or is executed now. */
  function Perform(st: RState, k: nat, v: CommandId): RState {
    if v in st.delivered then st.(lastExecuted := k)
    else if v !in st.cmds then st.(delivered := st.delivered + {v}, panicked := true)
    else st.(delivered := st.delivered + {v}, lastExecuted := k, store := Apply(st.store, st.cmds[v]),
             executed := st.executed + [v])
  }

  /** The loop at the end of commit. */
  ghost function ExecuteFrom(st: RState): (st': RState)
    requires st.lastExecuted >= -1
    ensures st'.lastExecuted >= -1 && st'.id == st.id
    decreases CommittedAbove(st)
  {
    var k: nat := st.lastExecuted + 1;
    var inst := GetInstance(st, k);
    var st0 := Put(st, k, inst);
    if !inst.committed then st0
    else
      var st1 := Perform(st0, k, inst.value);
      if st1.panicked then st1
      else
        assert k in CommittedAbove(st);
        ExecuteFrom(st1)
  }

  ghost function Commit(st: RState, i: nat, v: CommandId): RState
    requires st.lastExecuted >= -1
  {
    ExecuteFrom(Put(st, i, GetInstance(st, i).(value := v, committed := true)))
  }

  // ---------------------------------------------------------------- messages

  /** The order in which recovery sorts the messages. */
  predicate Less(a: M2B, b: M2B) {
    a.cballot <= b.cballot && (a.cballot < b.cballot || a.replica < b.replica)
  }

  ghost predicate IsLast(msgs: map<nat, M2B>, r: nat) {
    r in msgs && forall o :: o in msgs && o != r ==> Less(msgs[o], msgs[r])
  }

  lemma LastExists(msgs: map<nat, M2B>)
    requires msgs.Keys != {} && forall o :: o in msgs ==> msgs[o].replica == o
    ensures exists r :: IsLast(msgs, r)
  {
    var r := FindLast(msgs, msgs.Keys);
    assert IsLast(msgs, r);
  }

  lemma {:induction false} FindLast(msgs: map<nat, M2B>, rs: set<nat>) returns (r: nat)
    requires rs != {} && rs <= msgs.Keys && forall o :: o in msgs ==> msgs[o].replica == o
    ensures r in rs && forall o :: o in rs && o != r ==> Less(msgs[o], msgs[r])
    decreases rs
  {
    r :| r in rs;
    if rs != {r} {
      var t := FindLast(msgs, rs - {r});
      if Less(msgs[r], msgs[t]) {
        r := t;
      }
    }
  }

  ghost function LastOf(msgs: map<nat, M2B>): (r: nat)
    requires msgs.Keys != {} && forall o :: o in msgs ==> msgs[o].replica == o
    ensures IsLast(msgs, r)
  {
    LastExists(msgs);
    var last :| IsLast(msgs, last);
    last
  }

  ghost predicate AllEqual(msgs: map<nat, M2B>) {
    forall a, b :: a in msgs && b in msgs ==> msgs[a].cmdId == msgs[b].cmdId
  }

  function AdvanceBallot(inst: Inst, ballot: int): Inst {
    if ballot > inst.ballot then inst.(ballot := ballot, cballot := ballot) else inst
  }

  ghost function BallotsFrom(st: RState, i: nat, b: int): set<int> {
    set x | x in GetInstance(st, i).m2bSets && x >= b
  }

  /** The message joins the set of its ballot. */
  function Join(st: RState, m: M2B): RState {
    var inst := GetInstance(st, m.instanceId);
    var s := AddTo(st.quorum, AcceptAll(), GetM2bSet(inst, m.ballot), m.replica, false, m);
    Put(st, m.instanceId, inst.(m2bSets := inst.m2bSets[m.ballot := s]))
  }

  lemma JoinKeepsSets(st: RState, m: M2B)
    requires SetsOk(st)
    ensures SetsOk(Join(st, m))
  {
  }

  /** The value that recovery picks, and the message that announces it. */
  ghost function Recover(st: RState, i: nat, b: int): (RState, M2B)
    requires SetsOk(st) && i in st.instances && b in st.instances[i].m2bSets
    requires st.instances[i].m2bSets[b].msgs.Keys != {}
  {
    var inst, msgs := st.instances[i], st.instances[i].m2bSets[b].msgs;
    var maxV := msgs[LastOf(msgs)];
    var inst' := AdvanceBallot(inst.(value := maxV.cmdId), maxV.ballot + 1);
    (Put(st, i, inst'), M2B(inst'.value, inst'.ballot, inst'.cballot, st.id, i))
  }

  /** handleM2B and handleM2Bs. The recursion ends because a round of recovery only goes on if a message
      of the next ballot has already arrived. */
  ghost function HandleM2B(st: RState, m: M2B): (o: Outcome)
    requires SetsOk(st)
    ensures o.st.id == st.id
    decreases BallotsFrom(st, m.instanceId, m.ballot)
  {
    var i, b := m.instanceId, m.ballot;
    var before := GetM2bSet(GetInstance(st, i), b);
    var st1 := Join(st, m);
    JoinKeepsSets(st, m);
    if !Calls(st.quorum, AcceptAll(), before, m.replica, false, m) then Outcome(st1, [])
    else
      var msgs := st1.instances[i].m2bSets[b].msgs;
      assert m.replica in msgs;
      if AllEqual(msgs) then Outcome(Commit(st1, i, m.cmdId), [])
      else if st1.instances[i].ballot != b then Outcome(st1, [])
      else
        var (st2, m2b) := Recover(st1, i, b);
        RecoveryShrinks(st, m);
        var o := HandleM2B(st2, m2b);
        Outcome(o.st, [m2b] + o.out)
  }

  /** The recursion is well-founded: the ballots from b on are fewer after the recovery. */
  lemma RecoveryShrinks(st: RState, m: M2B)
    requires SetsOk(st) && SetsOk(Join(st, m)) && Join(st, m).instances[m.instanceId].m2bSets[m.ballot].msgs.Keys != {}
    requires !AllEqual(Join(st, m).instances[m.instanceId].m2bSets[m.ballot].msgs)
    requires Join(st, m).instances[m.instanceId].ballot == m.ballot
    ensures var (st2, m2b) := Recover(Join(st, m), m.instanceId, m.ballot);
      SetsOk(st2) && m2b.instanceId == m.instanceId && m2b.ballot == m.ballot + 1
      && st2.id == st.id && st2.panicked == st.panicked
      && BallotsFrom(st2, m.instanceId, m2b.ballot) < BallotsFrom(st, m.instanceId, m.ballot)
  {
    OtherMessageWasThere(st, m);
    var (st2, m2b) := Recover(Join(st, m), m.instanceId, m.ballot);
    assert m.ballot in BallotsFrom(st, m.instanceId, m.ballot);
    assert BallotsFrom(st2, m.instanceId, m2b.ballot) <= BallotsFrom(st, m.instanceId, m.ballot) - {m.ballot};
  }

  lemma OtherMessageWasThere(st: RState, m: M2B)
    requires SetsOk(st) && !AllEqual(Join(st, m).instances[m.instanceId].m2bSets[m.ballot].msgs)
    ensures m.ballot in GetInstance(st, m.instanceId).m2bSets
  {
  }

  /** What handleProposal records before it sends, and what it sends. */
  function Proposed(st: RState, cmdId: CommandId, command: Command): RState {
    Put(st.(cmds := st.cmds[cmdId := command], next := st.next + 1), st.next, GetInstance(st, st.next).(value := cmdId))
  }

  function ProposalMsg(st: RState, cmdId: CommandId): M2B {
    M2B(cmdId, GetInstance(st, st.next).ballot, GetInstance(st, st.next).cballot, st.id, st.next)
  }

  ghost function HandleProposal(st: RState, cmdId: CommandId, command: Command): Outcome
    requires SetsOk(st)
  {
    var o := HandleM2B(Proposed(st, cmdId, command), ProposalMsg(st, cmdId));
    Outcome(o.st, [ProposalMsg(st, cmdId)] + o.out)
  }
}
