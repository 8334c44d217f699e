/** Fast Paxos with one fixed fast quorum, as a transition system. Any message that was ever sent may
    arrive anywhere, late, again, or never. */
module FastPaxos {
  import opened State
  import opened CommandIds
  import opened Options
  import opened Sequences
  import opened Quorum
  import opened MsgSet
  import opened FastPaxosSpec

  /** proposals[s] lists what replica s proposed for instances 0, 1, 2, ... */
  datatype Global = Global(
    q: set<nat>,
    init: Store,
    cmdOf: CommandId -> Command,
    nodes: seq<RState>,
    proposals: seq<seq<CommandId>>,
    sent: set<M2B>)

  function InitialReplica(id: nat, q: set<nat>, init: Store): RState {
    RState(id, QuorumI.Fixed(q), 0, map[], {}, map[], -1, init, [], false)
  }

  ghost predicate Init(g: Global) {
    && |g.nodes| == |g.proposals|
    && (forall s :: s in g.q ==> s < |g.nodes|)
    && (forall s :: 0 <= s < |g.nodes| ==> g.nodes[s] == InitialReplica(s, g.q, g.init) && g.proposals[s] == [])
    && g.sent == {}
  }

  ghost function SetOf(out: seq<M2B>): set<M2B> {
    set m | m in out
  }

  /** A client's proposal reaches replica s. */
  ghost predicate ProposeStep(g: Global, g': Global, s: nat, c: CommandId) {
    && s < |g.nodes| == |g.proposals| && SetsOk(g.nodes[s]) && !g.nodes[s].panicked
    && var o := HandleProposal(g.nodes[s], c, g.cmdOf(c));
       g' == g.(nodes := g.nodes[s := o.st], proposals := g.proposals[s := g.proposals[s] + [c]],
                sent := g.sent + SetOf(o.out))
  }

  ghost predicate DeliverStep(g: Global, g': Global, s: nat, m: M2B) {
    && s < |g.nodes| && m in g.sent && m.replica != s && SetsOk(g.nodes[s]) && !g.nodes[s].panicked
    && var o := HandleM2B(g.nodes[s], m);
       g' == g.(nodes := g.nodes[s := o.st], sent := g.sent + SetOf(o.out))
  }

  ghost predicate Next(g: Global, g': Global) {
    (exists s, c :: ProposeStep(g, g', s, c)) || (exists s, m :: DeliverStep(g, g', s, m))
  }

  ghost predicate IsRun(run: seq<Global>) {
    run != [] && Init(run[0]) && forall i :: 0 <= i < |run| - 1 ==> Next(run[i], run[i + 1])
  }

  // ---------------------------------------------------------------- what is chosen

  /** h is the member of q with the highest id. */
  ghost predicate Highest(q: set<nat>, h: nat) {
    h in q && forall s :: s in q ==> s <= h
  }

  /** Every member has proposed something for instance i. */
  ghost predicate Everyone(q: set<nat>, ps: seq<seq<CommandId>>, i: nat) {
    forall s :: s in q ==> s < |ps| && i < |ps[s]|
  }

  /** What the members say. */
  ghost predicate MsgOk(q: set<nat>, ps: seq<seq<CommandId>>, h: nat, m: M2B) {
    m.replica in q ==>
      && m.replica < |ps| && m.instanceId < |ps[m.replica]|
      && ((m.ballot == 0 && m.cballot == 0 && m.cmdId == ps[m.replica][m.instanceId])
          || (m.ballot == 1 && m.cballot == 1 && h < |ps| && Everyone(q, ps, m.instanceId)
              && m.instanceId < |ps[h]| && m.cmdId == ps[h][m.instanceId]))
  }

  ghost predicate SetMsgsOk(q: set<nat>, ps: seq<seq<CommandId>>, h: nat, s: Replies<M2B>) {
    forall r :: r in s.msgs ==> r in q && MsgOk(q, ps, h, s.msgs[r])
  }

  ghost predicate InstOk(q: set<nat>, ps: seq<seq<CommandId>>, h: nat, s: nat, i: nat, inst: Inst) {
    && (forall b :: b in inst.m2bSets ==> SetMsgsOk(q, ps, h, inst.m2bSets[b]))
    && (inst.ballot == 0 || inst.ballot == 1)
    && (inst.committed || inst.ballot == 1 ==> Everyone(q, ps, i))
    && (s in q ==> inst.cballot == inst.ballot && (inst.committed ==> h < |ps| && i < |ps[h]| && inst.value == ps[h][i]))
  }

  /** Each command once, in the order of first occurrence. */
  function Dedup(xs: seq<CommandId>): seq<CommandId> {
    if xs == [] then []
    else
      var d := Dedup(xs[..|xs| - 1]);
      if xs[|xs| - 1] in d then d else d + [xs[|xs| - 1]]
  }

  function Replay(init: Store, cmdOf: CommandId -> Command, ids: seq<CommandId>): Store {
    if ids == [] then init else Apply(Replay(init, cmdOf, ids[..|ids| - 1]), cmdOf(ids[|ids| - 1]))
  }

  /** The executor of a member: it has executed a gap-free prefix of what h proposed. */
  ghost predicate ExecOk(init: Store, cmdOf: CommandId -> Command, chosen: seq<CommandId>, st: RState) {
    && -1 <= st.lastExecuted < |chosen|
    && st.executed == Dedup(chosen[..st.lastExecuted + 1])
    && st.store == Replay(init, cmdOf, st.executed)
    && (if st.panicked then st.lastExecuted + 1 < |chosen| && chosen[st.lastExecuted + 1] !in st.cmds
        else st.delivered == set c | c in st.executed)
    && forall c :: c in st.cmds ==> st.cmds[c] == cmdOf(c)
  }

  ghost predicate NodeOk(g: Global, h: nat, st: RState) {
    && st.quorum == QuorumI.Fixed(g.q) && SetsOk(st) && st.id < |g.proposals| && st.next == |g.proposals[st.id]|
    && (forall i :: i in st.instances ==> InstOk(g.q, g.proposals, h, st.id, i, st.instances[i]))
    && (st.id in g.q ==> h < |g.proposals| && ExecOk(g.init, g.cmdOf, g.proposals[h], st))
  }

  ghost predicate Inv(g: Global, h: nat) {
    && Highest(g.q, h) && |g.nodes| == |g.proposals| && (forall s :: s in g.q ==> s < |g.nodes|)
    && (forall s :: 0 <= s < |g.nodes| ==> g.nodes[s].id == s && NodeOk(g, h, g.nodes[s]))
    && forall m :: m in g.sent ==> MsgOk(g.q, g.proposals, h, m)
  }

  // ---------------------------------------------------------------- handlers keep the invariant

  /** Any two states of one replica that differ in one instance only. */
  lemma PutOk(g: Global, h: nat, st: RState, i: nat, inst: Inst)
    requires NodeOk(g, h, st) && InstOk(g.q, g.proposals, h, st.id, i, inst)
    requires forall b :: b in inst.m2bSets ==> SetOk(inst.m2bSets[b], i, b)
    ensures NodeOk(g, h, Put(st, i, inst))
  {
    hide InstOk, SetOk, ExecOk;
    assert SetsOk(Put(st, i, inst));
    SameExecutor(g.init, g.cmdOf, if h < |g.proposals| then g.proposals[h] else [], st, Put(st, i, inst));
  }

  lemma SameExecutor(init: Store, cmdOf: CommandId -> Command, chosen: seq<CommandId>, st: RState, st': RState)
    requires st' == st.(instances := st'.instances)
    ensures ExecOk(init, cmdOf, chosen, st) ==> ExecOk(init, cmdOf, chosen, st')
  {
  }

  lemma CurrentOk(g: Global, h: nat, st: RState, i: nat)
    requires NodeOk(g, h, st)
    ensures InstOk(g.q, g.proposals, h, st.id, i, GetInstance(st, i))
    ensures forall b :: b in GetInstance(st, i).m2bSets ==> SetOk(GetInstance(st, i).m2bSets[b], i, b)
  {
  }

  lemma JoinOk(g: Global, h: nat, st: RState, m: M2B)
    requires NodeOk(g, h, st) && MsgOk(g.q, g.proposals, h, m)
    ensures NodeOk(g, h, Join(st, m))
  {
    hide MsgOk, NodeOk, Everyone;
    CurrentOk(g, h, st, m.instanceId);
    QuorumIs(g, h, st);
    var inst := GetInstance(st, m.instanceId);
    var s := AddTo(st.quorum, AcceptAll(), GetM2bSet(inst, m.ballot), m.replica, false, m);
    JoinedOk(g, h, st.id, m, inst, s);
    PutOk(g, h, st, m.instanceId, inst.(m2bSets := inst.m2bSets[m.ballot := s]));
  }

  lemma JoinedOk(g: Global, h: nat, s: nat, m: M2B, inst: Inst, joined: Replies<M2B>)
    requires InstOk(g.q, g.proposals, h, s, m.instanceId, inst) && MsgOk(g.q, g.proposals, h, m)
    requires forall b :: b in inst.m2bSets ==> SetOk(inst.m2bSets[b], m.instanceId, b)
    requires joined == AddTo(QuorumI.Fixed(g.q), AcceptAll(), GetM2bSet(inst, m.ballot), m.replica, false, m)
    ensures InstOk(g.q, g.proposals, h, s, m.instanceId, inst.(m2bSets := inst.m2bSets[m.ballot := joined]))
    ensures SetOk(joined, m.instanceId, m.ballot)
  {
    hide MsgOk, Everyone;
    var before := GetM2bSet(inst, m.ballot);
    assert joined == before || (m.replica in g.q && joined == before.(msgs := before.msgs[m.replica := m]));
    forall r | r in joined.msgs ensures r in g.q && MsgOk(g.q, g.proposals, h, joined.msgs[r]) {
      if r in before.msgs && joined.msgs[r] == before.msgs[r] {
        assert m.ballot in inst.m2bSets;
      }
    }
  }

  lemma QuorumIs(g: Global, h: nat, st: RState)
    requires NodeOk(g, h, st)
    ensures st.quorum == QuorumI.Fixed(g.q) && SetsOk(st)
  {
  }

  /** A complete set holds one message of every member. */
  lemma CompleteIsEveryone(g: Global, h: nat, st: RState, m: M2B)
    requires NodeOk(g, h, st) && MsgOk(g.q, g.proposals, h, m) && Highest(g.q, h)
    requires Calls(st.quorum, AcceptAll(), GetM2bSet(GetInstance(st, m.instanceId), m.ballot), m.replica, false, m)
    ensures m.replica in g.q && m.instanceId in Join(st, m).instances
    ensures m.ballot in Join(st, m).instances[m.instanceId].m2bSets
    ensures Join(st, m).instances[m.instanceId].m2bSets[m.ballot].msgs.Keys == g.q
    ensures Join(st, m).instances[m.instanceId].m2bSets[m.ballot].msgs[m.replica] == m
    ensures SetsOk(Join(st, m)) && NodeOk(g, h, Join(st, m))
  {
    hide MsgOk, Everyone, ExecOk, Highest;
    JoinKeepsSets(st, m);
    JoinOk(g, h, st, m);
    var s := Join(st, m).instances[m.instanceId].m2bSets[m.ballot];
    assert forall r :: r in s.msgs ==> r in g.q;
    assert s.leaderMsg == None;
    WholeSet(s.msgs.Keys, g.q);
  }

  /** In a complete set everyone has proposed; at ballot 1 all messages say what h proposed, and at
      ballot 0 the last one does. */
  lemma CompleteChooses(g: Global, h: nat, st: RState, i: nat, b: int)
    requires NodeOk(g, h, st) && Highest(g.q, h) && (forall s :: s in g.q ==> s < |g.proposals|)
    requires i in st.instances && b in st.instances[i].m2bSets && st.instances[i].m2bSets[b].msgs.Keys == g.q
    ensures Everyone(g.q, g.proposals, i) && h < |g.proposals| && i < |g.proposals[h]|
    ensures var msgs := st.instances[i].m2bSets[b].msgs;
      && (b == 0 || b == 1)
      && (forall r :: r in msgs ==> msgs[r].replica == r && msgs[r].ballot == b)
      && (AllEqual(msgs) ==> forall r :: r in msgs ==> msgs[r].cmdId == g.proposals[h][i])
      && (!AllEqual(msgs) ==> b == 0)
      && msgs[LastOf(msgs)].cmdId == g.proposals[h][i]
  {
    var msgs := st.instances[i].m2bSets[b].msgs;
    assert SetOk(st.instances[i].m2bSets[b], i, b);
    assert InstOk(g.q, g.proposals, h, st.id, i, st.instances[i]);
    assert h in msgs && MsgOk(g.q, g.proposals, h, msgs[h]);
    forall r | r in g.q ensures r < |g.proposals| && i < |g.proposals[r]| {
      assert MsgOk(g.q, g.proposals, h, msgs[r]);
    }
    var last := LastOf(msgs);
    if b == 0 {
      LastIsHighest(g, h, msgs, last);
    }
  }

  lemma LastIsHighest(g: Global, h: nat, msgs: map<nat, M2B>, last: nat)
    requires msgs.Keys == g.q && Highest(g.q, h) && IsLast(msgs, last)
    requires forall r :: r in msgs ==> msgs[r].replica == r && msgs[r].cballot == 0
    ensures last == h
  {
    assert last != h ==> Less(msgs[h], msgs[last]);
  }

  /** Recovery moves to ballot 1 with the value that h proposed. */
  lemma RecoverOk(g: Global, h: nat, st: RState, i: nat, b: int)
    requires NodeOk(g, h, st) && Highest(g.q, h) && (forall s :: s in g.q ==> s < |g.proposals|)
    requires i in st.instances && b in st.instances[i].m2bSets && st.instances[i].m2bSets[b].msgs.Keys == g.q
    requires !AllEqual(st.instances[i].m2bSets[b].msgs) && st.instances[i].ballot == b
    ensures g.q != {} && b == 0
    ensures var (st', m2b) := Recover(st, i, b);
      NodeOk(g, h, st') && MsgOk(g.q, g.proposals, h, m2b) && m2b.ballot == 1 && m2b.instanceId == i
      && SetsOk(st') && st'.panicked == st.panicked
  {
    hide NodeOk, MsgOk;
    CompleteChooses(g, h, st, i, b);
    CurrentOk(g, h, st, i);
    QuorumIs(g, h, st);
    var (st', m2b) := Recover(st, i, b);
    var inst' := st'.instances[i];
    RecoveredOk(g, h, st.id, i, st.instances[i], inst');
    PutOk(g, h, st, i, inst');
    QuorumIs(g, h, st');
    NodeInRange(g, h, st);
    RecoveryMsgOk(g, h, m2b);
  }

  lemma RecoveredOk(g: Global, h: nat, s: nat, i: nat, inst: Inst, inst': Inst)
    requires InstOk(g.q, g.proposals, h, s, i, inst) && Everyone(g.q, g.proposals, i)
    requires h < |g.proposals| && i < |g.proposals[h]|
    requires inst' == inst.(value := g.proposals[h][i], ballot := 1, cballot := 1)
    ensures InstOk(g.q, g.proposals, h, s, i, inst')
  {
  }

  lemma NodeInRange(g: Global, h: nat, st: RState)
    requires NodeOk(g, h, st)
    ensures st.id < |g.proposals|
  {
  }

  lemma RecoveryMsgOk(g: Global, h: nat, m: M2B)
    requires Everyone(g.q, g.proposals, m.instanceId) && h < |g.proposals| && m.instanceId < |g.proposals[h]|
    requires m.ballot == 1 && m.cballot == 1 && m.cmdId == g.proposals[h][m.instanceId]
    ensures MsgOk(g.q, g.proposals, h, m)
  {
  }

  // ---------------------------------------------------------------- execution

  lemma DedupMore(chosen: seq<CommandId>, k: nat)
    requires k < |chosen|
    ensures Dedup(chosen[..k + 1])
         == if chosen[k] in Dedup(chosen[..k]) then Dedup(chosen[..k]) else Dedup(chosen[..k]) + [chosen[k]]
  {
    assert chosen[..k + 1][..k] == chosen[..k];
  }

  lemma ReplayMore(init: Store, cmdOf: CommandId -> Command, ids: seq<CommandId>, c: CommandId)
    ensures Replay(init, cmdOf, ids + [c]) == Apply(Replay(init, cmdOf, ids), cmdOf(c))
  {
    assert (ids + [c])[..|ids|] == ids;
  }

  /** One round of the loop of commit: the command was executed before, is unknown, or is executed. */
  lemma SkipOne(init: Store, cmdOf: CommandId -> Command, chosen: seq<CommandId>, st: RState, k: nat)
    requires ExecOk(init, cmdOf, chosen, st) && !st.panicked && k == st.lastExecuted + 1 < |chosen|
    requires chosen[k] in st.delivered
    ensures ExecOk(init, cmdOf, chosen, st.(lastExecuted := k))
  {
    DedupMore(chosen, k);
  }

  lemma PanicOne(init: Store, cmdOf: CommandId -> Command, chosen: seq<CommandId>, st: RState, v: CommandId)
    requires ExecOk(init, cmdOf, chosen, st) && st.lastExecuted + 1 < |chosen| && v == chosen[st.lastExecuted + 1] && v !in st.cmds
    ensures ExecOk(init, cmdOf, chosen, st.(delivered := st.delivered + {v}, panicked := true))
  {
  }

  lemma ExecuteOne(init: Store, cmdOf: CommandId -> Command, chosen: seq<CommandId>, st: RState, k: nat, v: CommandId)
    requires ExecOk(init, cmdOf, chosen, st) && !st.panicked && k == st.lastExecuted + 1 < |chosen|
    requires chosen[k] == v && v !in st.delivered && v in st.cmds
    ensures ExecOk(init, cmdOf, chosen,
                   st.(delivered := st.delivered + {v}, lastExecuted := k, store := Apply(st.store, st.cmds[v]),
                       executed := st.executed + [v]))
  {
    hide Apply, Dedup, Replay;
    DedupMore(chosen, k);
    ReplayMore(init, cmdOf, st.executed, v);
    assert v !in st.executed;
    assert (set c | c in st.executed + [v]) == (set c | c in st.executed) + {v};
  }

  /** What the executor of a replica may change. */
  ghost predicate ExecutorOnly(st: RState, st': RState) {
    && st'.id == st.id && st'.quorum == st.quorum && st'.next == st.next && st'.instances == st.instances
    && st'.lastExecuted >= -1
  }

  lemma ExecutorChangeOk(g: Global, h: nat, st: RState, st': RState)
    requires NodeOk(g, h, st) && ExecutorOnly(st, st')
    requires st.id in g.q && h < |g.proposals| ==> ExecOk(g.init, g.cmdOf, g.proposals[h], st')
    ensures NodeOk(g, h, st')
  {
    hide InstOk, ExecOk, SetOk;
  }

  lemma {:induction false} ExecuteFromOk(g: Global, h: nat, st: RState)
    requires NodeOk(g, h, st) && !st.panicked
    ensures NodeOk(g, h, ExecuteFrom(st))
    decreases CommittedAbove(st)
  {
    hide InstOk, ExecOk, Perform;
    var k: nat := st.lastExecuted + 1;
    var inst := GetInstance(st, k);
    var st0 := Put(st, k, inst);
    assert inst.committed ==> k in CommittedAbove(st);
    CurrentOk(g, h, st, k);
    PutOk(g, h, st, k, inst);
    if inst.committed {
      PerformOk(g, h, st0, k);
      if !Perform(st0, k, inst.value).panicked {
        ExecuteFromOk(g, h, Perform(st0, k, inst.value));
      }
    }
  }

  lemma PerformOk(g: Global, h: nat, st: RState, k: nat)
    requires NodeOk(g, h, st) && !st.panicked && k == st.lastExecuted + 1
    requires k in st.instances && st.instances[k].committed
    ensures var st' := Perform(st, k, st.instances[k].value);
      NodeOk(g, h, st') && (!st'.panicked ==> CommittedAbove(st') < CommittedAbove(st))
  {
    var v := st.instances[k].value;
    var st' := Perform(st, k, v);
    assert k in CommittedAbove(st) && k !in CommittedAbove(st.(lastExecuted := k));
    assert InstOk(g.q, g.proposals, h, st.id, k, st.instances[k]);
    hide SetsOk, Apply;
    if st.id in g.q {
      PerformExecutes(g.init, g.cmdOf, g.proposals[h], st, k);
    }
    ExecutorChangeOk(g, h, st, st');
  }

  lemma PerformExecutes(init: Store, cmdOf: CommandId -> Command, chosen: seq<CommandId>, st: RState, k: nat)
    requires ExecOk(init, cmdOf, chosen, st) && !st.panicked && k == st.lastExecuted + 1 < |chosen|
    ensures ExecOk(init, cmdOf, chosen, Perform(st, k, chosen[k]))
  {
    hide ExecOk, Apply;
    var v := chosen[k];
    if v in st.delivered {
      SkipOne(init, cmdOf, chosen, st, k);
    } else if v !in st.cmds {
      PanicOne(init, cmdOf, chosen, st, v);
    } else {
      ExecuteOne(init, cmdOf, chosen, st, k, v);
    }
  }

  lemma CommitOk(g: Global, h: nat, st: RState, i: nat, v: CommandId)
    requires NodeOk(g, h, st) && !st.panicked && h < |g.proposals| && i < |g.proposals[h]| && v == g.proposals[h][i]
    requires Everyone(g.q, g.proposals, i)
    ensures NodeOk(g, h, Commit(st, i, v))
  {
    hide ExecOk, SetOk;
    CurrentOk(g, h, st, i);
    var inst := GetInstance(st, i).(value := v, committed := true);
    PutOk(g, h, st, i, inst);
    ExecuteFromOk(g, h, Put(st, i, inst));
  }

  // ---------------------------------------------------------------- the two events

  lemma {:induction false} HandleOk(g: Global, h: nat, st: RState, m: M2B)
    requires NodeOk(g, h, st) && !st.panicked && MsgOk(g.q, g.proposals, h, m) && Highest(g.q, h)
    requires forall s :: s in g.q ==> s < |g.proposals|
    ensures NodeOk(g, h, HandleM2B(st, m).st)
    ensures forall o :: o in HandleM2B(st, m).out ==> MsgOk(g.q, g.proposals, h, o)
    decreases BallotsFrom(st, m.instanceId, m.ballot)
  {
    hide NodeOk, MsgOk, Everyone, InstOk, ExecOk, Commit, Highest, AddTo, SetsOk, Calls, IsLast, AllEqual, BallotsFrom,
      Recover, GetM2bSet, GetInstance;
    QuorumIs(g, h, st);
    var i, b := m.instanceId, m.ballot;
    var before := GetM2bSet(GetInstance(st, i), b);
    var st1 := Join(st, m);
    JoinOk(g, h, st, m);
    if Calls(st.quorum, AcceptAll(), before, m.replica, false, m) {
      CompleteIsEveryone(g, h, st, m);
      CompleteChooses(g, h, st1, i, b);
      if AllEqual(st1.instances[i].m2bSets[b].msgs) {
        CommitOk(g, h, st1, i, m.cmdId);
      } else if st1.instances[i].ballot == b {
        RecoverOk(g, h, st1, i, b);
        RecoveryShrinks(st, m);
        HandleOk(g, h, Recover(st1, i, b).0, Recover(st1, i, b).1);
      }
    }
  }

  /** More proposals leave everything said so far true. */
  ghost predicate Extended(ps: seq<seq<CommandId>>, ps': seq<seq<CommandId>>) {
    |ps'| == |ps| && forall s :: 0 <= s < |ps| ==> ps[s] <= ps'[s]
  }

  lemma MsgExtended(q: set<nat>, ps: seq<seq<CommandId>>, ps': seq<seq<CommandId>>, h: nat, m: M2B)
    requires MsgOk(q, ps, h, m) && Extended(ps, ps')
    ensures MsgOk(q, ps', h, m)
  {
  }

  lemma InstExtended(q: set<nat>, ps: seq<seq<CommandId>>, ps': seq<seq<CommandId>>, h: nat, s: nat, i: nat, inst: Inst)
    requires InstOk(q, ps, h, s, i, inst) && Extended(ps, ps')
    ensures InstOk(q, ps', h, s, i, inst)
  {
    hide MsgOk;
    forall b | b in inst.m2bSets ensures SetMsgsOk(q, ps', h, inst.m2bSets[b]) {
      var s := inst.m2bSets[b];
      assert SetMsgsOk(q, ps, h, s);
      forall r | r in s.msgs ensures r in q && MsgOk(q, ps', h, s.msgs[r]) {
        MsgExtended(q, ps, ps', h, s.msgs[r]);
      }
    }
  }

  lemma ExecExtended(init: Store, cmdOf: CommandId -> Command, chosen: seq<CommandId>, chosen': seq<CommandId>, st: RState)
    requires ExecOk(init, cmdOf, chosen, st) && chosen <= chosen'
    ensures ExecOk(init, cmdOf, chosen', st)
  {
    assert chosen[..st.lastExecuted + 1] == chosen'[..st.lastExecuted + 1];
  }

  lemma NodeExtended(g: Global, g': Global, h: nat, st: RState)
    requires NodeOk(g, h, st) && Extended(g.proposals, g'.proposals)
    requires g'.q == g.q && g'.init == g.init && g'.cmdOf == g.cmdOf
    requires st.next == |g'.proposals[st.id]|
    ensures NodeOk(g', h, st)
  {
    hide InstOk, ExecOk;
    forall i | i in st.instances ensures InstOk(g'.q, g'.proposals, h, st.id, i, st.instances[i]) {
      InstExtended(g.q, g.proposals, g'.proposals, h, st.id, i, st.instances[i]);
    }
    if st.id in g.q {
      ExecExtended(g.init, g.cmdOf, g.proposals[h], g'.proposals[h], st);
    }
  }

  /** A replica that proposes: what handleProposal does before the message goes out. */
  lemma ProposalOk(g: Global, g': Global, h: nat, st: RState, c: CommandId)
    requires NodeOk(g, h, st) && !st.panicked && Highest(g.q, h) && (forall s :: s in g.q ==> s < |g.proposals|)
    requires g' == g.(nodes := g'.nodes, proposals := g'.proposals, sent := g'.sent)
    requires g'.proposals == g.proposals[st.id := g.proposals[st.id] + [c]]
    ensures var o := HandleProposal(st, c, g.cmdOf(c));
      NodeOk(g', h, o.st) && forall m :: m in o.out ==> MsgOk(g.q, g'.proposals, h, m)
  {
    hide NodeOk, MsgOk, HandleM2B, Proposed, ProposalMsg, Highest;
    NextOf(g, h, st);
    ProposedOk(g, g', h, st, c);
    QuorumIs(g', h, Proposed(st, c, g.cmdOf(c)));
    HandleOk(g', h, Proposed(st, c, g.cmdOf(c)), ProposalMsg(st, c));
  }

  lemma ProposedOk(g: Global, g': Global, h: nat, st: RState, c: CommandId)
    requires NodeOk(g, h, st) && !st.panicked
    requires g' == g.(nodes := g'.nodes, proposals := g'.proposals, sent := g'.sent)
    requires g'.proposals == g.proposals[st.id := g.proposals[st.id] + [c]]
    ensures NodeOk(g', h, Proposed(st, c, g.cmdOf(c))) && MsgOk(g.q, g'.proposals, h, ProposalMsg(st, c))
    ensures Proposed(st, c, g.cmdOf(c)).panicked == st.panicked
  {
    var inst0 := GetInstance(st, st.next);
    var inst := inst0.(value := c);
    var st0 := st.(cmds := st.cmds[c := g.cmdOf(c)], next := st.next + 1);
    CurrentOk(g, h, st, st.next);
    NextIsOpen(g, h, st);
    InstExtended(g.q, g.proposals, g'.proposals, h, st.id, st.next, inst0);
    NodeProposed(g, g', h, st, c);
    assert InstOk(g'.q, g'.proposals, h, st.id, st.next, inst);
    assert MsgOk(g'.q, g'.proposals, h, ProposalMsg(st, c));
    hide InstOk, MsgOk, NodeOk, ExecOk, SetOk;
    PutOk(g', h, st0, st.next, inst);
  }

  /** A member has not committed, and not recovered, an instance that it has not proposed for. */
  lemma NextIsOpen(g: Global, h: nat, st: RState)
    requires NodeOk(g, h, st)
    ensures st.id in g.q ==> !GetInstance(st, st.next).committed && GetInstance(st, st.next).ballot == 0
    ensures st.id in g.q ==> GetInstance(st, st.next).cballot == 0
  {
    CurrentOk(g, h, st, st.next);
  }

  lemma NodeProposed(g: Global, g': Global, h: nat, st: RState, c: CommandId)
    requires !st.panicked && NodeOk(g, h, st) && g' == g.(nodes := g'.nodes, proposals := g'.proposals, sent := g'.sent)
    requires g'.proposals == g.proposals[st.id := g.proposals[st.id] + [c]]
    ensures NodeOk(g', h, st.(cmds := st.cmds[c := g.cmdOf(c)], next := st.next + 1))
  {
    hide InstOk;
    var st0 := st.(cmds := st.cmds[c := g.cmdOf(c)], next := st.next + 1);
    assert Extended(g.proposals, g'.proposals);
    forall i | i in st.instances ensures InstOk(g'.q, g'.proposals, h, st.id, i, st.instances[i]) {
      InstExtended(g.q, g.proposals, g'.proposals, h, st.id, i, st.instances[i]);
    }
    if st.id in g.q {
      ExecExtended(g.init, g.cmdOf, g.proposals[h], g'.proposals[h], st);
    }
  }

  // ---------------------------------------------------------------- runs

  lemma ProposeInv(g: Global, g': Global, h: nat, s: nat, c: CommandId)
    requires Inv(g, h) && ProposeStep(g, g', s, c)
    ensures Inv(g', h)
  {
    hide MsgOk, NodeOk, Highest, HandleProposal;
    var st := g.nodes[s];
    ProposalOk(g, g', h, st, c);
    KeepsId(st, c, g.cmdOf(c));
    NextOf(g, h, st);
    assert Extended(g.proposals, g'.proposals);
    forall r | 0 <= r < |g'.nodes| ensures g'.nodes[r].id == r && NodeOk(g', h, g'.nodes[r]) {
      if r != s {
        NextOf(g, h, g.nodes[r]);
        NodeExtended(g, g', h, g.nodes[r]);
      }
    }
    forall m | m in g'.sent ensures MsgOk(g'.q, g'.proposals, h, m) {
      if m in g.sent {
        MsgExtended(g.q, g.proposals, g'.proposals, h, m);
      }
    }
  }

  lemma KeepsId(st: RState, c: CommandId, command: Command)
    requires SetsOk(st)
    ensures HandleProposal(st, c, command).st.id == st.id
  {
    hide HandleM2B;
  }

  lemma NextOf(g: Global, h: nat, st: RState)
    requires NodeOk(g, h, st)
    ensures st.id < |g.proposals| && st.next == |g.proposals[st.id]|
  {
  }

  lemma DeliverInv(g: Global, g': Global, h: nat, s: nat, m: M2B)
    requires Inv(g, h) && DeliverStep(g, g', s, m)
    ensures Inv(g', h)
  {
    hide MsgOk, NodeOk, Highest, HandleM2B;
    HandleOk(g, h, g.nodes[s], m);
    forall r | 0 <= r < |g'.nodes| ensures g'.nodes[r].id == r && NodeOk(g', h, g'.nodes[r]) {
      SameContext(g, g', h, g'.nodes[r]);
    }
  }

  lemma SameContext(g: Global, g': Global, h: nat, st: RState)
    requires NodeOk(g, h, st) && g' == g.(nodes := g'.nodes, sent := g'.sent)
    ensures NodeOk(g', h, st)
  {
    hide InstOk, ExecOk, SetsOk;
  }

  lemma InitInv(g: Global, h: nat)
    requires Init(g) && Highest(g.q, h)
    ensures Inv(g, h)
  {
    assert Dedup([]) == [];
  }

  lemma StepInv(g: Global, g': Global, h: nat)
    requires Inv(g, h) && Next(g, g')
    ensures Inv(g', h) && g'.q == g.q
  {
    hide Inv;
    if s, c :| ProposeStep(g, g', s, c) {
      ProposeInv(g, g', h, s, c);
    } else {
      var s, m :| DeliverStep(g, g', s, m);
      DeliverInv(g, g', h, s, m);
    }
  }

  lemma RunInit(run: seq<Global>)
    requires IsRun(run) && |run| > 1
    ensures IsRun(run[..|run| - 1]) && Next(run[|run| - 2], run[|run| - 1])
    ensures run[..|run| - 1][0] == run[0] && run[..|run| - 1][|run| - 2] == run[|run| - 2]
  {
    hide Next, Init;
  }

  lemma {:induction false} RunInv(run: seq<Global>, h: nat)
    requires IsRun(run) && Highest(run[0].q, h)
    ensures Inv(run[|run| - 1], h) && run[|run| - 1].q == run[0].q
    decreases |run|
  {
    hide Inv, Next, Highest;
    if |run| == 1 {
      InitInv(run[0], h);
    } else {
      RunInit(run);
      RunInv(run[..|run| - 1], h);
      StepInv(run[|run| - 2], run[|run| - 1], h);
    }
  }

  // ---------------------------------------------------------------- theorems

  ghost predicate CommittedAt(g: Global, s: nat, i: nat) {
    s < |g.nodes| && i in g.nodes[s].instances && g.nodes[s].instances[i].committed
  }

  /** A member commits for each instance what Q's highest member proposed there. */
  lemma MembersCommitTheHighestProposal(run: seq<Global>, h: nat, s: nat, i: nat)
    requires IsRun(run) && Highest(run[0].q, h) && s in run[0].q
    requires CommittedAt(run[|run| - 1], s, i)
    ensures var g := run[|run| - 1];
      h < |g.proposals| && i < |g.proposals[h]| && g.nodes[s].instances[i].value == g.proposals[h][i]
  {
    hide MsgOk, ExecOk, Next;
    RunInv(run, h);
    assert NodeOk(run[|run| - 1], h, run[|run| - 1].nodes[s]);
  }

  /** If h proposes distinct commands, no command is committed in two instances, at any two members. */
  lemma CommittedOnce(run: seq<Global>, h: nat, s: nat, i: nat, r: nat, j: nat)
    requires IsRun(run) && Highest(run[0].q, h) && s in run[0].q && r in run[0].q
    requires CommittedAt(run[|run| - 1], s, i) && CommittedAt(run[|run| - 1], r, j)
    requires h < |run[|run| - 1].proposals| && Distinct(run[|run| - 1].proposals[h])
    ensures run[|run| - 1].nodes[s].instances[i].value == run[|run| - 1].nodes[r].instances[j].value <==> i == j
  {
    hide Next;
    MembersCommitTheHighestProposal(run, h, s, i);
    MembersCommitTheHighestProposal(run, h, r, j);
  }

  /** No replica, member or not, ever leaves ballot 1 behind, and no set of a later ballot gets a message:
      whatever commits commits at ballot 0 or 1. */
  lemma OnlyTwoBallots(run: seq<Global>, h: nat, s: nat, i: nat, b: int)
    requires IsRun(run) && Highest(run[0].q, h)
    requires s < |run[|run| - 1].nodes| && i in run[|run| - 1].nodes[s].instances
    ensures var inst := run[|run| - 1].nodes[s].instances[i];
      (inst.ballot == 0 || inst.ballot == 1)
      && (b in inst.m2bSets && inst.m2bSets[b].msgs.Keys != {} ==> b == 0 || b == 1)
  {
    hide ExecOk, Next;
    RunInv(run, h);
    var g := run[|run| - 1];
    var inst := g.nodes[s].instances[i];
    assert NodeOk(g, h, g.nodes[s]);
    assert InstOk(g.q, g.proposals, h, s, i, inst);
    if b in inst.m2bSets && inst.m2bSets[b].msgs.Keys != {} {
      assert SetMsgsOk(g.q, g.proposals, h, inst.m2bSets[b]) && SetOk(inst.m2bSets[b], i, b);
      var r :| r in inst.m2bSets[b].msgs;
    }
  }

  /** A member has executed a gap-free prefix of what h proposed, each command once, and its store is
      the result. If it died, it died on the next command, which no client had sent it. */
  lemma MembersExecuteAPrefix(run: seq<Global>, h: nat, s: nat)
    requires IsRun(run) && Highest(run[0].q, h) && s in run[0].q
    ensures var g := run[|run| - 1];
      s < |g.nodes| && h < |g.proposals| && -1 <= g.nodes[s].lastExecuted < |g.proposals[h]|
      && g.nodes[s].executed == Dedup(g.proposals[h][..g.nodes[s].lastExecuted + 1])
      && g.nodes[s].store == Replay(g.init, g.cmdOf, g.nodes[s].executed)
      && Distinct(g.nodes[s].executed)
      && (g.nodes[s].panicked ==> g.nodes[s].lastExecuted + 1 < |g.proposals[h]|
                                  && g.proposals[h][g.nodes[s].lastExecuted + 1] !in g.nodes[s].cmds)
      && (Distinct(g.proposals[h]) ==> g.nodes[s].executed == g.proposals[h][..g.nodes[s].lastExecuted + 1])
  {
    hide InstOk, SetsOk, MsgOk, Next;
    RunInv(run, h);
    var g := run[|run| - 1];
    assert NodeOk(g, h, g.nodes[s]);
    DedupDistinct(g.proposals[h][..g.nodes[s].lastExecuted + 1]);
  }

  lemma {:induction false} DedupDistinct(xs: seq<CommandId>)
    ensures Distinct(Dedup(xs)) && (forall x :: x in Dedup(xs) <==> x in xs)
    ensures Distinct(xs) ==> Dedup(xs) == xs
  {
    if xs != [] {
      DedupDistinct(xs[..|xs| - 1]);
      assert xs == xs[..|xs| - 1] + [xs[|xs| - 1]];
    }
  }

  lemma {:induction false} DedupPrefix(xs: seq<CommandId>, a: nat, b: nat)
    requires a <= b <= |xs|
    ensures Dedup(xs[..a]) <= Dedup(xs[..b])
    decreases b - a
  {
    if a < b {
      DedupPrefix(xs, a, b - 1);
      DedupMore(xs, b - 1);
    }
  }

  /** The executions of any two members are prefixes of one another. */
  lemma ExecutionsAreComparable(run: seq<Global>, h: nat, s: nat, r: nat)
    requires IsRun(run) && Highest(run[0].q, h) && s in run[0].q && r in run[0].q
    ensures var g := run[|run| - 1];
      s < |g.nodes| && r < |g.nodes|
      && (g.nodes[s].executed <= g.nodes[r].executed || g.nodes[r].executed <= g.nodes[s].executed)
      && (|g.nodes[s].executed| == |g.nodes[r].executed| ==> g.nodes[s].store == g.nodes[r].store)
  {
    hide Next, Dedup, Replay;
    MembersExecuteAPrefix(run, h, s);
    MembersExecuteAPrefix(run, h, r);
    var g := run[|run| - 1];
    var a, b := g.nodes[s].lastExecuted + 1, g.nodes[r].lastExecuted + 1;
    if a <= b {
      DedupPrefix(g.proposals[h], a, b);
    } else {
      DedupPrefix(g.proposals[h], b, a);
    }
    assert |g.nodes[s].executed| == |g.nodes[r].executed| ==> g.nodes[s].executed == g.nodes[r].executed;
  }
}
