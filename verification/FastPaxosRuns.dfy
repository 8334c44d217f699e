/** Two runs of Fast Paxos with three replicas and the quorum {0, 1}: one after which the replica outside the
    quorum has lost a committed value and holds another store, and one in which a member dies. */
module FastPaxosRuns {
  import opened State
  import opened CommandIds
  import opened Options
  import opened Quorum
  import opened MsgSet
  import opened FastPaxosSpec
  import opened FastPaxos
  import opened FastPaxosLimits
  import FastPaxosReplica

  const X := CommandId(1, 0)
  const Y := CommandId(1, 1)
  const Z := CommandId(2, 0)
  const Pair: QuorumI := Fixed({0, 1})

  /** Each command is a PUT of its own value on one key. */
  function CommandOf(c: CommandId): Command {
    Command(PUT, 0, if c == X then [0] else if c == Y then [1] else [2])
  }

  ghost predicate Reached(g: Global) {
    exists run :: IsRun(run) && run[|run| - 1] == g
  }

  // ---------------------------------------------------------------- steps

  ghost function Start(init: Store): Global {
    Global({0, 1}, init, CommandOf, seq(3, s requires 0 <= s < 3 => InitialReplica(s, {0, 1}, init)),
           [[], [], []], {})
  }

  lemma StartReached(init: Store)
    ensures Reached(Start(init)) && Start(init).init == init
    ensures forall s :: 0 <= s < 3 ==> Start(init).nodes[s] == InitialReplica(s, {0, 1}, init)
  {
    var g := Start(init);
    assert Init(g);
    assert IsRun([g]);
  }

  /** A reached state of the three replicas. */
  ghost predicate At(g: Global, init: Store, a: RState, b: RState, c: RState) {
    && Reached(g) && g.q == {0, 1} && g.init == init && g.cmdOf == CommandOf && |g.nodes| == 3
    && g.nodes[0] == a && g.nodes[1] == b && g.nodes[2] == c
  }

  lemma ReachedNext(g: Global, g': Global)
    requires Reached(g) && Next(g, g')
    ensures Reached(g')
  {
    hide Next, Init;
    var run :| IsRun(run) && run[|run| - 1] == g;
    assert IsRun(run + [g']);
    assert (run + [g'])[|run|] == g';
  }

  lemma ReachedInv(g: Global)
    requires Reached(g) && g.q == {0, 1}
    ensures Inv(g, 1) && |g.nodes| == |g.proposals| && forall s :: 0 <= s < |g.nodes| ==> SetsOk(g.nodes[s])
  {
    hide Next, Inv;
    var run :| IsRun(run) && run[|run| - 1] == g;
    SameQuorum(run);
    RunInv(run, 1);
    Parts(g);
  }

  lemma Parts(g: Global)
    requires Inv(g, 1)
    ensures |g.nodes| == |g.proposals| && forall s :: 0 <= s < |g.nodes| ==> SetsOk(g.nodes[s])
  {
    hide MsgOk, InstOk, ExecOk, SetsOk;
  }

  lemma {:induction false} SameQuorum(run: seq<Global>)
    requires IsRun(run)
    ensures run[|run| - 1].q == run[0].q
    decreases |run|
  {
    if |run| > 1 {
      RunInit(run);
      SameQuorum(run[..|run| - 1]);
      QuorumStays(run[|run| - 2], run[|run| - 1]);
    }
  }

  lemma QuorumStays(g: Global, g': Global)
    requires Next(g, g')
    ensures g'.q == g.q
  {
    hide HandleM2B;
  }

  /** Replica s with its new state among the three. */
  function Changed(nodes: seq<RState>, s: nat, st: RState): seq<RState>
    requires s < |nodes|
  {
    nodes[s := st]
  }

  lemma DoPropose(g: Global, s: nat, c: CommandId, st': RState, out: seq<M2B>) returns (g': Global)
    requires Reached(g) && g.q == {0, 1} && g.cmdOf == CommandOf && |g.nodes| == 3 && s < 3
    requires SetsOk(g.nodes[s]) ==> HandleProposal(g.nodes[s], c, CommandOf(c)) == Outcome(st', out)
    requires !g.nodes[s].panicked
    ensures Reached(g') && ProposeStep(g, g', s, c)
    ensures g'.q == g.q && g'.init == g.init && g'.cmdOf == g.cmdOf && g'.nodes == Changed(g.nodes, s, st')
    ensures g'.sent == g.sent + SetOf(out)
  {
    hide HandleProposal, Reached, Inv, SetsOk;
    ReachedInv(g);
    g' := g.(nodes := g.nodes[s := st'], proposals := g.proposals[s := g.proposals[s] + [c]], sent := g.sent + SetOf(out));
    assert ProposeStep(g, g', s, c);
    ReachedNext(g, g');
  }

  lemma DoDeliver(g: Global, s: nat, m: M2B, st': RState, out: seq<M2B>) returns (g': Global)
    requires Reached(g) && g.q == {0, 1} && |g.nodes| == 3 && s < 3 && m in g.sent && m.replica != s
    requires SetsOk(g.nodes[s]) ==> HandleM2B(g.nodes[s], m) == Outcome(st', out)
    requires !g.nodes[s].panicked
    ensures Reached(g') && DeliverStep(g, g', s, m)
    ensures g'.q == g.q && g'.init == g.init && g'.cmdOf == g.cmdOf && g'.nodes == Changed(g.nodes, s, st')
    ensures g'.sent == g.sent + SetOf(out)
  {
    hide HandleM2B, Reached, Inv, SetsOk;
    ReachedInv(g);
    g' := g.(nodes := g.nodes[s := st'], sent := g.sent + SetOf(out));
    assert DeliverStep(g, g', s, m);
    ReachedNext(g, g');
  }

  // ---------------------------------------------------------------- what the handlers do here

  function One(m: M2B): Replies<M2B> {
    Replies(map[m.replica := m], None)
  }

  function Two(a: M2B, b: M2B): Replies<M2B> {
    Replies(map[a.replica := a, b.replica := b], None)
  }

  /** The set of the message's ballot becomes s. */
  function Hears(st: RState, m: M2B, s: Replies<M2B>): RState {
    var inst := GetInstance(st, m.instanceId);
    Put(st, m.instanceId, inst.(m2bSets := inst.m2bSets[m.ballot := s]))
  }

  lemma Joins(st: RState, m: M2B)
    requires st.quorum == Pair
    ensures var before := GetM2bSet(GetInstance(st, m.instanceId), m.ballot);
      && (m.replica !in {0, 1} ==> Join(st, m) == Hears(st, m, before) && !Completes(st, m))
      && (m.replica in {0, 1} && before == NoMsgs ==> Join(st, m) == Hears(st, m, One(m)) && !Completes(st, m))
  {
    var before := GetM2bSet(GetInstance(st, m.instanceId), m.ballot);
    assert NoMsgs.msgs[m.replica := m] == map[m.replica := m];
  }

  lemma JoinsSecond(st: RState, m: M2B, o: M2B)
    requires st.quorum == Pair && {m.replica, o.replica} == {0, 1} && m.replica != o.replica
    requires GetM2bSet(GetInstance(st, m.instanceId), m.ballot) == One(o)
    ensures Join(st, m) == Hears(st, m, Two(o, m)) && Completes(st, m) && Two(o, m) == Two(m, o)
    ensures GetM2bSet(GetInstance(Join(st, m), m.instanceId), m.ballot).msgs == Two(o, m).msgs
  {
    assert One(o).msgs[m.replica := m] == Two(o, m).msgs;
    assert |Two(o, m).msgs| == 2 by {
      assert Two(o, m).msgs.Keys == {0, 1};
    }
  }

  lemma FirstHeard(st: RState, m: M2B)
    requires st.quorum == Pair && SetsOk(st)
    requires m.replica in {0, 1} ==> GetM2bSet(GetInstance(st, m.instanceId), m.ballot) == NoMsgs
    ensures HandleM2B(st, m)
         == Outcome(Hears(st, m, if m.replica in {0, 1} then One(m) else GetM2bSet(GetInstance(st, m.instanceId), m.ballot)), [])
  {
    Joins(st, m);
    hide Join, Calls, Hears, GetM2bSet, AllEqual, Recover;
  }

  /** Both members say the same. */
  lemma Agreed(st: RState, m: M2B, o: M2B)
    requires st.quorum == Pair && SetsOk(st) && {m.replica, o.replica} == {0, 1} && m.replica != o.replica
    requires GetM2bSet(GetInstance(st, m.instanceId), m.ballot) == One(o) && o.cmdId == m.cmdId && st.lastExecuted >= -1
    ensures var inst := GetInstance(st, m.instanceId);
      HandleM2B(st, m)
        == Outcome(ExecuteFrom(Put(st, m.instanceId, inst.(value := m.cmdId, committed := true,
                                                           m2bSets := inst.m2bSets[m.ballot := Two(o, m)]))), [])
  {
    JoinsSecond(st, m, o);
    CommitsHeard(st, m, Two(o, m));
    hide Join, Calls, Hears, GetM2bSet, Recover, Commit;
    assert AllEqual(Two(o, m).msgs);
  }

  lemma CommitsHeard(st: RState, m: M2B, s: Replies<M2B>)
    requires st.lastExecuted >= -1
    ensures var inst := GetInstance(st, m.instanceId);
      Commit(Hears(st, m, s), m.instanceId, m.cmdId)
        == ExecuteFrom(Put(st, m.instanceId, inst.(value := m.cmdId, committed := true, m2bSets := inst.m2bSets[m.ballot := s])))
  {
    var inst := GetInstance(st, m.instanceId);
    hide ExecuteFrom;
    var heard := Hears(st, m, s);
    assert GetInstance(heard, m.instanceId) == inst.(m2bSets := inst.m2bSets[m.ballot := s]);
    assert Put(heard, m.instanceId, GetInstance(heard, m.instanceId).(value := m.cmdId, committed := true))
        == Put(st, m.instanceId, inst.(value := m.cmdId, committed := true, m2bSets := inst.m2bSets[m.ballot := s]));
  }

  // ---------------------------------------------------------------- a replica outside the quorum

  function Voted(c: CommandId, s: nat, i: nat): M2B {
    M2B(c, 0, 0, s, i)
  }

  function Open(c: CommandId, m: Replies<M2B>): Inst {
    Inst(c, 0, 0, false, map[0 := m])
  }

  function Closed(c: CommandId, i: nat): Inst {
    Inst(c, 0, 0, true, map[0 := BothSay(c, i)])
  }

  function BothSay(c: CommandId, i: nat): Replies<M2B> {
    Two(Voted(c, 0, i), Voted(c, 1, i))
  }

  function Member1(s: nat, init: Store): RState {
    RState(s, Pair, 1, map[X := CommandOf(X)], {}, map[0 := Open(X, One(Voted(X, s, 0)))], -1, init, [], false)
  }

  function Member2(s: nat, init: Store): RState {
    RState(s, Pair, 2, map[X := CommandOf(X), Y := CommandOf(Y)], {},
           map[0 := Open(X, One(Voted(X, s, 0))), 1 := Open(Y, One(Voted(Y, s, 1)))], -1, init, [], false)
  }

  function Member3(init: Store): RState {
    RState(0, Pair, 2, map[X := CommandOf(X), Y := CommandOf(Y)], {X},
           map[0 := Closed(X, 0), 1 := Open(Y, One(Voted(Y, 0, 1)))], 0, Apply(init, CommandOf(X)), [X], false)
  }

  function Member4(init: Store): RState {
    RState(0, Pair, 2, map[X := CommandOf(X), Y := CommandOf(Y)], {X, Y},
           map[0 := Closed(X, 0), 1 := Closed(Y, 1), 2 := NewInst()], 1,
           Apply(Apply(init, CommandOf(X)), CommandOf(Y)), [X, Y], false)
  }

  /** Instance 1 is committed over a gap. */
  function Outsider1(init: Store): RState {
    RState(2, Pair, 0, map[], {}, map[1 := Inst(CommandId(0, 0), 0, 0, false, map[0 := One(Voted(Y, 0, 1))])], -1, init, [], false)
  }

  function Outsider2(init: Store): RState {
    RState(2, Pair, 0, map[], {}, map[0 := NewInst(), 1 := Closed(Y, 1)], -1, init, [], false)
  }

  function Outsider3(init: Store): RState {
    RState(2, Pair, 1, map[X := CommandOf(X)], {}, map[0 := Open(X, NoMsgs), 1 := Closed(Y, 1)], -1, init, [], false)
  }

  /** The second proposal overwrites it. */
  function Outsider4(init: Store): RState {
    RState(2, Pair, 2, map[X := CommandOf(X), Z := CommandOf(Z)], {},
           map[0 := Open(X, NoMsgs), 1 := Closed(Y, 1).(value := Z)], -1, init, [], false)
  }

  function Outsider5(init: Store): RState {
    RState(2, Pair, 2, map[X := CommandOf(X), Z := CommandOf(Z)], {},
           map[0 := Open(X, One(Voted(X, 0, 0))), 1 := Closed(Y, 1).(value := Z)], -1, init, [], false)
  }

  function Outsider6(init: Store): RState {
    RState(2, Pair, 2, map[X := CommandOf(X), Z := CommandOf(Z)], {X, Z},
           map[0 := Closed(X, 0), 1 := Closed(Y, 1).(value := Z), 2 := NewInst()], 1,
           Apply(Apply(init, CommandOf(X)), CommandOf(Z)), [X, Z], false)
  }

  /** A proposal whose own message completes nothing. */
  lemma ProposalOf(st: RState, c: CommandId, st': RState)
    requires st.quorum == Pair && SetsOk(Proposed(st, c, CommandOf(c)))
    requires st.id in {0, 1} ==> GetM2bSet(GetInstance(st, st.next), GetInstance(st, st.next).ballot) == NoMsgs
    requires var m := ProposalMsg(st, c);
      st' == Hears(Proposed(st, c, CommandOf(c)), m,
                   if st.id in {0, 1} then One(m) else GetM2bSet(GetInstance(st, st.next), m.ballot))
    requires SetsOk(st)
    ensures HandleProposal(st, c, CommandOf(c)) == Outcome(st', [ProposalMsg(st, c)])
  {
    FirstHeard(Proposed(st, c, CommandOf(c)), ProposalMsg(st, c));
    hide HandleM2B, SetsOk;
    assert [ProposalMsg(st, c)] + [] == [ProposalMsg(st, c)];
  }

  lemma MemberProposes(s: nat, init: Store)
    requires s < 2
    ensures SetsOk(InitialReplica(s, {0, 1}, init)) ==>
              HandleProposal(InitialReplica(s, {0, 1}, init), X, CommandOf(X)) == Outcome(Member1(s, init), [Voted(X, s, 0)])
    ensures SetsOk(Member1(s, init)) ==>
              HandleProposal(Member1(s, init), Y, CommandOf(Y)) == Outcome(Member2(s, init), [Voted(Y, s, 1)])
  {
    hide HandleM2B;
    ProposalOf(InitialReplica(s, {0, 1}, init), X, Member1(s, init));
    assert Member2(s, init).cmds == Member1(s, init).cmds[Y := CommandOf(Y)];
    ProposalOf(Member1(s, init), Y, Member2(s, init));
  }

  /** ExecuteFrom at a committed instance whose command is known. */
  lemma ExecutesOne(st: RState)
    requires st.lastExecuted >= -1 && !st.panicked && st.lastExecuted + 1 in st.instances
    requires st.instances[st.lastExecuted + 1].committed && st.instances[st.lastExecuted + 1].value in st.cmds
    requires st.instances[st.lastExecuted + 1].value !in st.delivered
    ensures var v := st.instances[st.lastExecuted + 1].value;
      ExecuteFrom(st) == ExecuteFrom(st.(delivered := st.delivered + {v}, lastExecuted := st.lastExecuted + 1,
                                         store := Apply(st.store, st.cmds[v]), executed := st.executed + [v]))
  {
    hide Apply, ExecuteFrom;
    FastPaxosReplica.ExecuteFromUnfolds(st);
  }

  lemma ExecutesNothing(st: RState)
    requires st.lastExecuted >= -1 && !GetInstance(st, st.lastExecuted + 1).committed
    ensures ExecuteFrom(st) == Put(st, st.lastExecuted + 1, GetInstance(st, st.lastExecuted + 1))
    ensures st.lastExecuted + 1 in st.instances ==> ExecuteFrom(st) == st
  {
    var k: nat := st.lastExecuted + 1;
    if k in st.instances {
      assert Put(st, k, st.instances[k]) == st;
    }
  }

  /** Both votes for c at instance i are there. */
  lemma CommitsAs(st: RState, c: CommandId, i: nat, st1: RState)
    requires st.quorum == Pair && SetsOk(st) && i in st.instances && st.lastExecuted >= -1
    requires st.instances[i].m2bSets == map[0 := One(Voted(c, 0, i))]
    requires st1 == Put(st, i, st.instances[i].(value := c, committed := true, m2bSets := map[0 := BothSay(c, i)]))
    ensures HandleM2B(st, Voted(c, 1, i)) == Outcome(ExecuteFrom(st1), [])
  {
    hide HandleM2B, ExecuteFrom, SetsOk;
    assert map[0 := One(Voted(c, 0, i))][0 := BothSay(c, i)] == map[0 := BothSay(c, i)];
    Agreed(st, Voted(c, 1, i), Voted(c, 0, i));
  }

  lemma MemberCommitsX(init: Store)
    requires SetsOk(Member2(0, init))
    ensures HandleM2B(Member2(0, init), Voted(X, 1, 0)) == Outcome(Member3(init), [])
  {
    hide HandleM2B, ExecuteFrom, Apply, CommandOf, SetsOk;
    var st := Member2(0, init).(instances := map[0 := Closed(X, 0), 1 := Open(Y, One(Voted(Y, 0, 1)))]);
    CommitsAs(Member2(0, init), X, 0, st);
    ExecutesOne(st);
    assert [] + [X] == [X] && {} + {X} == {X};
    ExecutesNothing(Member3(init));
  }

  lemma MemberCommitsY(init: Store)
    requires SetsOk(Member3(init))
    ensures HandleM2B(Member3(init), Voted(Y, 1, 1)) == Outcome(Member4(init), [])
  {
    hide HandleM2B, ExecuteFrom, Apply, CommandOf, SetsOk;
    var st := Member3(init).(instances := map[0 := Closed(X, 0), 1 := Closed(Y, 1)]);
    CommitsAs(Member3(init), Y, 1, st);
    ExecutesOne(st);
    assert [X] + [Y] == [X, Y] && {X} + {Y} == {X, Y};
    ExecutesNothing(Member4(init).(instances := st.instances));
    assert st.instances[2 := NewInst()] == Member4(init).instances;
  }

  lemma MemberCommits(init: Store)
    ensures SetsOk(Member2(0, init)) ==> HandleM2B(Member2(0, init), Voted(X, 1, 0)) == Outcome(Member3(init), [])
    ensures SetsOk(Member3(init)) ==> HandleM2B(Member3(init), Voted(Y, 1, 1)) == Outcome(Member4(init), [])
  {
    hide *;
    if SetsOk(Member2(0, init)) {
      MemberCommitsX(init);
    }
    if SetsOk(Member3(init)) {
      MemberCommitsY(init);
    }
  }

  lemma OutsiderCommits(init: Store)
    ensures SetsOk(InitialReplica(2, {0, 1}, init)) ==>
              HandleM2B(InitialReplica(2, {0, 1}, init), Voted(Y, 0, 1)) == Outcome(Outsider1(init), [])
    ensures SetsOk(Outsider1(init)) ==> HandleM2B(Outsider1(init), Voted(Y, 1, 1)) == Outcome(Outsider2(init), [])
  {
    hide HandleM2B, ExecuteFrom, SetsOk;
    if SetsOk(InitialReplica(2, {0, 1}, init)) {
      FirstHeard(InitialReplica(2, {0, 1}, init), Voted(Y, 0, 1));
    }
    if SetsOk(Outsider1(init)) {
      var st := Outsider1(init).(instances := map[1 := Closed(Y, 1)]);
      CommitsAs(Outsider1(init), Y, 1, st);
      ExecutesNothing(st);
    }
  }

  lemma OutsiderProposes(init: Store)
    ensures SetsOk(Outsider2(init)) ==>
              HandleProposal(Outsider2(init), X, CommandOf(X)) == Outcome(Outsider3(init), [Voted(X, 2, 0)])
    ensures SetsOk(Outsider3(init)) ==>
              HandleProposal(Outsider3(init), Z, CommandOf(Z)) == Outcome(Outsider4(init), [Voted(Z, 2, 1)])
  {
    hide HandleM2B;
    if SetsOk(Outsider2(init)) {
      ProposalOf(Outsider2(init), X, Outsider3(init));
    }
    if SetsOk(Outsider3(init)) {
      assert Outsider4(init).cmds == Outsider3(init).cmds[Z := CommandOf(Z)];
      assert map[0 := BothSay(Y, 1)][0 := BothSay(Y, 1)] == map[0 := BothSay(Y, 1)];
      var p := Proposed(Outsider3(init), Z, CommandOf(Z));
      assert p.instances == Outsider4(init).instances;
      assert SetsOk(p);
      ProposalOf(Outsider3(init), Z, Outsider4(init));
    }
  }

  lemma OutsiderHearsX(init: Store)
    requires SetsOk(Outsider4(init))
    ensures HandleM2B(Outsider4(init), Voted(X, 0, 0)) == Outcome(Outsider5(init), [])
  {
    hide HandleM2B, ExecuteFrom, Apply, CommandOf, SetsOk;
    FirstHeard(Outsider4(init), Voted(X, 0, 0));
    assert map[0 := NoMsgs][0 := One(Voted(X, 0, 0))] == map[0 := One(Voted(X, 0, 0))];
  }

  lemma OutsiderExecutesZ(init: Store)
    requires SetsOk(Outsider5(init))
    ensures HandleM2B(Outsider5(init), Voted(X, 1, 0)) == Outcome(Outsider6(init), [])
  {
    hide HandleM2B, ExecuteFrom, Apply, CommandOf, SetsOk;
    var st := Outsider5(init).(instances := map[0 := Closed(X, 0), 1 := Closed(Y, 1).(value := Z)]);
    CommitsAs(Outsider5(init), X, 0, st);
    ExecutesOne(st);
    var st1 := st.(delivered := {X}, lastExecuted := 0, store := Apply(init, CommandOf(X)), executed := [X]);
    assert [] + [X] == [X] && {} + {X} == {X};
    ExecutesOne(st1);
    assert [X] + [Z] == [X, Z] && {X} + {Z} == {X, Z};
    ExecutesNothing(Outsider6(init).(instances := st.instances));
    assert st.instances[2 := NewInst()] == Outsider6(init).instances;
  }

  lemma OutsiderExecutes(init: Store)
    ensures SetsOk(Outsider4(init)) ==> HandleM2B(Outsider4(init), Voted(X, 0, 0)) == Outcome(Outsider5(init), [])
    ensures SetsOk(Outsider5(init)) ==> HandleM2B(Outsider5(init), Voted(X, 1, 0)) == Outcome(Outsider6(init), [])
  {
    hide *;
    if SetsOk(Outsider4(init)) {
      OutsiderHearsX(init);
    }
    if SetsOk(Outsider5(init)) {
      OutsiderExecutesZ(init);
    }
  }

  lemma OneOut(m: M2B)
    ensures SetOf([m]) == {m} && SetOf([]) == {}
  {
  }

  /** The members vote for X at instance 0 and for Y at instance 1. */
  lemma MembersPropose(init: Store) returns (g: Global)
    ensures At(g, init, Member2(0, init), Member2(1, init), InitialReplica(2, {0, 1}, init))
    ensures {Voted(X, 0, 0), Voted(X, 1, 0), Voted(Y, 0, 1), Voted(Y, 1, 1)} <= g.sent
  {
    hide Reached, HandleProposal, SetsOk, Member1, Member2, SetOf, ProposeStep;
    g := Start(init);
    StartReached(init);
    MemberProposes(0, init);
    MemberProposes(1, init);
    Alive(init);
    OneOut(Voted(X, 0, 0));
    OneOut(Voted(X, 1, 0));
    OneOut(Voted(Y, 0, 1));
    OneOut(Voted(Y, 1, 1));
    g := DoPropose(g, 0, X, Member1(0, init), [Voted(X, 0, 0)]);
    g := DoPropose(g, 0, Y, Member2(0, init), [Voted(Y, 0, 1)]);
    g := DoPropose(g, 1, X, Member1(1, init), [Voted(X, 1, 0)]);
    g := DoPropose(g, 1, Y, Member2(1, init), [Voted(Y, 1, 1)]);
  }

  lemma Alive(init: Store)
    ensures !Member1(0, init).panicked && !Member1(1, init).panicked && !Member2(0, init).panicked
    ensures !Member3(init).panicked && !Outsider1(init).panicked && !Outsider2(init).panicked && !Outsider3(init).panicked
    ensures !Outsider4(init).panicked && !Outsider5(init).panicked
  {
  }

  /** Member 0 executes X and Y; instance 1 is committed at replica 2. */
  lemma AllCommit(init: Store) returns (g: Global)
    ensures At(g, init, Member4(init), Member2(1, init), Outsider2(init))
    ensures Voted(X, 0, 0) in g.sent && Voted(X, 1, 0) in g.sent
  {
    hide Reached, HandleM2B, SetsOk, Member2, Member3, Member4, Outsider1, Outsider2, SetOf, DeliverStep;
    g := MembersPropose(init);
    MemberCommits(init);
    OutsiderCommits(init);
    Alive(init);
    g := DoDeliver(g, 0, Voted(X, 1, 0), Member3(init), []);
    g := DoDeliver(g, 0, Voted(Y, 1, 1), Member4(init), []);
    g := DoDeliver(g, 2, Voted(Y, 0, 1), Outsider1(init), []);
    g := DoDeliver(g, 2, Voted(Y, 1, 1), Outsider2(init), []);
  }

  /** A run in which replica 2 commits Y at instance 1, overwrites it with the next proposal of a client, and
      in the end has executed another command there than member 0, and holds another store. */
  lemma OutsiderLosesCommittedValue(init: Store) returns (g: Global, g1: Global, g2: Global, g3: Global)
    ensures Reached(g) && CommittedAt(g, 2, 1) && HoldsChosen(g, 1, 2) && g.nodes[2].instances[1].value == Y
    ensures ProposeStep(g, g1, 2, Z) && CommittedAt(g1, 2, 1) && g1.nodes[2].instances[1].value == Z
    ensures DeliverStep(g1, g2, 2, Voted(X, 0, 0)) && DeliverStep(g2, g3, 2, Voted(X, 1, 0))
    ensures Reached(g3) && g3.init == init && |g3.nodes| == 3 && !g3.nodes[0].panicked && !g3.nodes[2].panicked
    ensures g3.nodes[0].executed == [X, Y] && g3.nodes[2].executed == [X, Z]
    ensures g3.nodes[0].store != g3.nodes[2].store
  {
    hide Reached, HandleProposal, HandleM2B, SetsOk, Member2, Member4, Outsider2, Outsider3, Outsider4, Outsider5, Outsider6, SetOf, ProposeStep, DeliverStep,
      HoldsChosen;
    g := AllCommit(init);
    OutsiderProposes(init);
    OutsiderExecutes(init);
    Alive(init);
    g := DoPropose(g, 2, X, Outsider3(init), [Voted(X, 2, 0)]);
    HeldSoFar(g, init);
    g1 := DoPropose(g, 2, Z, Outsider4(init), [Voted(Z, 2, 1)]);
    Lost(init);
    g2 := DoDeliver(g1, 2, Voted(X, 0, 0), Outsider5(init), []);
    g3 := DoDeliver(g2, 2, Voted(X, 1, 0), Outsider6(init), []);
    DifferentEnds(init);
  }

  lemma Lost(init: Store)
    ensures 1 in Outsider3(init).instances && Outsider3(init).instances[1].committed && Outsider3(init).instances[1].value == Y
    ensures 1 in Outsider4(init).instances && Outsider4(init).instances[1].committed && Outsider4(init).instances[1].value == Z
  {
  }

  lemma DifferentEnds(init: Store)
    ensures Member4(init).executed == [X, Y] && !Member4(init).panicked
    ensures Outsider6(init).executed == [X, Z] && !Outsider6(init).panicked
    ensures Member4(init).store != Outsider6(init).store
  {
    assert Member4(init).store[0] == [1] && Outsider6(init).store[0] == [2];
  }

  /** Until then replica 2 holds what was chosen: member 0 has executed it. */
  lemma HeldSoFar(g: Global, init: Store)
    requires At(g, init, Member4(init), Member2(1, init), Outsider3(init))
    ensures HoldsChosen(g, 1, 2)
  {
    hide Reached, ExecOk, MsgOk, SetMsgsOk, Everyone, Inv;
    ReachedInv(g);
    NodeIs(g, 1, 0);
    assert InstOk(g.q, g.proposals, 1, 0, 1, g.nodes[0].instances[1]);
    assert HoldsChosenAt(g, 1, 2, 1);
  }

  // ---------------------------------------------------------------- a member that dies

  /** Replica 0 votes for X, replica 1 for Y, both at instance 0. */
  function Voter(s: nat, c: CommandId, init: Store): RState {
    RState(s, Pair, 1, map[c := CommandOf(c)], {}, map[0 := Open(c, One(Voted(c, s, 0)))], -1, init, [], false)
  }

  function Recovery(s: nat): M2B {
    M2B(Y, 1, 1, s, 0)
  }

  function Split(): Replies<M2B> {
    Two(Voted(X, 0, 0), Voted(Y, 1, 0))
  }

  /** It has seen the collision and recovered the vote of replica 1. */
  function Recovered(s: nat, c: CommandId, init: Store): RState {
    RState(s, Pair, 1, map[c := CommandOf(c)], {},
           map[0 := Inst(Y, 1, 1, false, map[0 := Split(), 1 := One(Recovery(s))])], -1, init, [], false)
  }

  /** Replica 0 has never received Y from a client. */
  function Dead(init: Store): RState {
    RState(0, Pair, 1, map[X := CommandOf(X)], {Y},
           map[0 := Inst(Y, 1, 1, true, map[0 := Split(), 1 := Two(Recovery(0), Recovery(1))])], -1, init, [], true)
  }

  lemma VoterProposes(s: nat, c: CommandId, init: Store)
    requires s < 2
    ensures SetsOk(InitialReplica(s, {0, 1}, init)) ==>
              HandleProposal(InitialReplica(s, {0, 1}, init), c, CommandOf(c)) == Outcome(Voter(s, c, init), [Voted(c, s, 0)])
  {
    hide HandleM2B;
    ProposalOf(InitialReplica(s, {0, 1}, init), c, Voter(s, c, init));
  }

  /** The last message is that of replica 1. */
  lemma SplitLast()
    ensures Split().msgs.Keys == {0, 1} && (forall o :: o in Split().msgs ==> Split().msgs[o].replica == o)
    ensures LastOf(Split().msgs) == 1 && !AllEqual(Split().msgs)
  {
    var msgs := Split().msgs;
    assert msgs[0] == Voted(X, 0, 0) && msgs[1] == Voted(Y, 1, 0);
    var last := LastOf(msgs);
    assert last == 0 ==> Less(msgs[1], msgs[0]);
  }

  function Seen(s: nat, c: CommandId, init: Store): RState {
    Voter(s, c, init).(instances := map[0 := Inst(c, 0, 0, false, map[0 := Split()])])
  }

  /** Before its own recovery vote. */
  function Recovering(s: nat, c: CommandId, init: Store): RState {
    Voter(s, c, init).(instances := map[0 := Inst(Y, 1, 1, false, map[0 := Split()])])
  }

  lemma SeesCollision(s: nat, c: CommandId, m: M2B, init: Store)
    requires (s == 0 && c == X && m == Voted(Y, 1, 0)) || (s == 1 && c == Y && m == Voted(X, 0, 0))
    ensures Join(Voter(s, c, init), m) == Seen(s, c, init) && Completes(Voter(s, c, init), m)
  {
    JoinsSecond(Voter(s, c, init), m, Voted(c, s, 0));
    assert Two(Voted(c, s, 0), m) == Split();
    assert map[0 := One(Voted(c, s, 0))][0 := Split()] == map[0 := Split()];
    hide Join, Calls, CommandOf;
    assert map[0 := Open(c, One(Voted(c, s, 0)))][0 := Inst(c, 0, 0, false, map[0 := Split()])]
        == map[0 := Inst(c, 0, 0, false, map[0 := Split()])];
  }

  lemma RecoversSplit(s: nat, c: CommandId, init: Store)
    requires SetsOk(Seen(s, c, init))
    ensures Split().msgs.Keys != {} && Recover(Seen(s, c, init), 0, 0) == (Recovering(s, c, init), Recovery(s))
  {
    SplitLast();
    var inst, inst2 := Inst(c, 0, 0, false, map[0 := Split()]), Inst(Y, 1, 1, false, map[0 := Split()]);
    assert map[0 := inst][0 := inst2] == map[0 := inst2];
    assert Split().msgs[1] == Voted(Y, 1, 0);
    hide LastOf;
  }

  lemma OwnRecoveryVote(s: nat, c: CommandId, init: Store)
    requires s < 2 && SetsOk(Recovering(s, c, init))
    ensures HandleM2B(Recovering(s, c, init), Recovery(s)) == Outcome(Recovered(s, c, init), [])
  {
    FirstHeard(Recovering(s, c, init), Recovery(s));
    hide HandleM2B, SetsOk, CommandOf;
    assert map[0 := Split()][1 := One(Recovery(s))] == map[0 := Split(), 1 := One(Recovery(s))];
  }

  /** The other vote arrives: collision. */
  lemma Collides(s: nat, c: CommandId, m: M2B, init: Store)
    requires SetsOk(Voter(s, c, init))
    requires (s == 0 && c == X && m == Voted(Y, 1, 0)) || (s == 1 && c == Y && m == Voted(X, 0, 0))
    ensures HandleM2B(Voter(s, c, init), m) == Outcome(Recovered(s, c, init), [Recovery(s)])
  {
    hide *;
    var st := Voter(s, c, init);
    SeesCollision(s, c, m, init);
    JoinKeepsSets(st, m);
    SeenIs(s, c, init);
    RecoversSplit(s, c, init);
    SplitLast();
    AtInstance0(s, c, m);
    RecoveryShrinks(st, m);
    OwnRecoveryVote(s, c, init);
    RecoveryVote(st, m, Recovering(s, c, init), Recovery(s));
    assert [Recovery(s)] + [] == [Recovery(s)];
  }

  lemma SeenIs(s: nat, c: CommandId, init: Store)
    ensures 0 in Seen(s, c, init).instances && Seen(s, c, init).instances[0] == Inst(c, 0, 0, false, map[0 := Split()])
  {
  }

  lemma AtInstance0(s: nat, c: CommandId, m: M2B)
    requires (s == 0 && c == X && m == Voted(Y, 1, 0)) || (s == 1 && c == Y && m == Voted(X, 0, 0))
    ensures m.instanceId == 0 && m.ballot == 0
  {
  }

  /** HandleM2B on a message that makes the replica recover. */
  lemma RecoveryVote(st: RState, m: M2B, st2: RState, m2b: M2B)
    requires SetsOk(st) && Completes(st, m) && SetsOk(Join(st, m)) && m.instanceId in Join(st, m).instances
    requires m.ballot in Join(st, m).instances[m.instanceId].m2bSets
    requires var inst := Join(st, m).instances[m.instanceId];
      inst.ballot == m.ballot && inst.m2bSets[m.ballot].msgs.Keys != {} && !AllEqual(inst.m2bSets[m.ballot].msgs)
    requires Recover(Join(st, m), m.instanceId, m.ballot) == (st2, m2b) && SetsOk(st2)
    ensures HandleM2B(st, m) == Outcome(HandleM2B(st2, m2b).st, [m2b] + HandleM2B(st2, m2b).out)
  {
    hide Join, Recover, Calls, AllEqual, SetsOk, GetM2bSet;
  }

  /** The other recovery vote arrives: replica 0 commits a command that it does not know. */
  lemma Dies(init: Store)
    requires SetsOk(Recovered(0, X, init))
    ensures HandleM2B(Recovered(0, X, init), Recovery(1)) == Outcome(Dead(init), [])
  {
    hide HandleM2B, SetsOk;
    Agreed(Recovered(0, X, init), Recovery(1), Recovery(0));
    var st := Recovered(0, X, init).(instances := Dead(init).instances);
    assert map[0 := Split(), 1 := One(Recovery(0))][1 := Two(Recovery(0), Recovery(1))]
        == map[0 := Split(), 1 := Two(Recovery(0), Recovery(1))];
    assert ExecuteFrom(st) == Dead(init);
  }

  /** A run in which a member of the quorum commits a command before a client has sent it, and dies. */
  lemma MemberDies(init: Store) returns (g: Global)
    ensures Reached(g) && g.init == init && |g.nodes| == 3 && 0 in g.q
    ensures g.nodes[0].panicked && g.nodes[0].executed == [] && CommittedAt(g, 0, 0)
    ensures g.nodes[0].instances[0].value !in g.nodes[0].cmds
  {
    hide Reached, HandleProposal, HandleM2B, SetsOk, Voter, Recovered, Dead, SetOf, ProposeStep, DeliverStep;
    g := Start(init);
    StartReached(init);
    VoterProposes(0, X, init);
    VoterProposes(1, Y, init);
    VotersLive(init);
    OneOut(Voted(X, 0, 0));
    OneOut(Voted(Y, 1, 0));
    OneOut(Recovery(0));
    OneOut(Recovery(1));
    g := DoPropose(g, 0, X, Voter(0, X, init), [Voted(X, 0, 0)]);
    g := DoPropose(g, 1, Y, Voter(1, Y, init), [Voted(Y, 1, 0)]);
    ReachedInv(g);
    assert g.nodes[0] == Voter(0, X, init) && g.nodes[1] == Voter(1, Y, init);
    Collides(0, X, Voted(Y, 1, 0), init);
    g := DoDeliver(g, 0, Voted(Y, 1, 0), Recovered(0, X, init), [Recovery(0)]);
    Collides(1, Y, Voted(X, 0, 0), init);
    g := DoDeliver(g, 1, Voted(X, 0, 0), Recovered(1, Y, init), [Recovery(1)]);
    ReachedInv(g);
    assert g.nodes[0] == Recovered(0, X, init);
    Dies(init);
    g := DoDeliver(g, 0, Recovery(1), Dead(init), []);
    DeadIs(init);
  }

  lemma VotersLive(init: Store)
    ensures !Voter(0, X, init).panicked && !Voter(1, Y, init).panicked
    ensures !Recovered(0, X, init).panicked && !Recovered(1, Y, init).panicked
  {
  }

  lemma DeadIs(init: Store)
    ensures Dead(init).panicked && Dead(init).executed == [] && 0 in Dead(init).instances
    ensures Dead(init).instances[0].committed && Dead(init).instances[0].value !in Dead(init).cmds
  {
  }
}
