/** A failure-free run that ends with different stores: three replicas, two PUTs and a GET on one key. */
module EpaxosTieRun {
  import opened State
  import opened Sequences
  import opened Traces
  import opened DepGraph
  import opened Options
  import opened EpaxosTypes
  import opened EpaxosSpec
  import opened EpaxosProtocol
  import EpaxosRounds
  import EpaxosBasic
  import EpaxosVotes
  import EpaxosExecution
  import opened EpaxosSafety
  import opened SccSearch
  import opened Replay
  import opened EpaxosTies

  const Nil: seq<int> := [-1, -1, -1]
  const PutX := Command(PUT, 0, [1])
  const PutY := Command(PUT, 0, [2])
  const GetZ := Command(GET, 0, [])

  // ---------------------------------------------------------------- one command, three replicas

  function Column(st: RState, c: Command, a: Attributes, replica: nat, q: nat): Attributes
    requires q < |st.conflicts| && q < |a.deps|
  {
    if SkippedColumn(st, replica, q) || c.k !in st.conflicts[q] || LastConflict(st.conflicts[q], c) <= a.deps[q] then a
    else
      var d := LastConflict(st.conflicts[q], c);
      var s := if d >= 0 && Id(q, d) in st.space then st.space[Id(q, d)].seqno else 0;
      Attributes(if a.seqno <= s then s + 1 else a.seqno, a.deps[q := d], true)
  }

  lemma OneColumn(st: RState, c: Command, seqno: int, deps: seq<int>, replica: nat, q: nat)
    requires ConflictsKnown(st) && q < st.n == |deps| && forall i :: 0 <= i < |deps| ==> -1 <= deps[i]
    ensures UpdateDeps(st, [c], seqno, deps, replica, q + 1) == Column(st, c, UpdateDeps(st, [c], seqno, deps, replica, q), replica, q)
  {
    var a := UpdateDeps(st, [c], seqno, deps, replica, q);
    assert FirstRaise(st.conflicts[q], [c], a.deps[q], 1) == None;
    if c.k in st.conflicts[q] {
      assert PairKnown(st.space, q, st.conflicts[q][c.k]);
    }
  }

  function Three(st: RState, c: Command, seqno: int, deps: seq<int>, replica: nat): Attributes
    requires |st.conflicts| == |deps| == 3
  {
    var a0 := Column(st, c, Attributes(seqno, deps, false), replica, 0);
    var a1 := Column(st, c, a0, replica, 1);
    var a2 := Column(st, c, a1, replica, 2);
    if c.k in st.maxSeqPerKey && a2.seqno <= st.maxSeqPerKey[c.k] then Attributes(st.maxSeqPerKey[c.k] + 1, a2.deps, true) else a2
  }

  lemma AttributesOfThree(st: RState, c: Command, seqno: int, deps: seq<int>, replica: nat)
    requires ConflictsKnown(st) && st.n == |deps| == 3 && forall i :: 0 <= i < |deps| ==> -1 <= deps[i]
    ensures UpdateAttributes(st, [c], seqno, deps, replica) == Three(st, c, seqno, deps, replica)
  {
    OneColumn(st, c, seqno, deps, replica, 0);
    OneColumn(st, c, seqno, deps, replica, 1);
    OneColumn(st, c, seqno, deps, replica, 2);
    var a := UpdateDeps(st, [c], seqno, deps, replica, 3);
    assert RaiseSeq(st.maxSeqPerKey, [c], a, 0) == a;
  }

  // ---------------------------------------------------------------- the states of replicas 0 and 1

  function Conflicts(c0: map<Key, InstPair>, c1: map<Key, InstPair>): seq<map<Key, InstPair>> {
    [c0, c1, map[]]
  }

  function FirstLb(replica: nat, c: Command, deps: seq<int>): LeaderBookkeeping {
    NewLeaderBookkeeping(false, 3, deps, replica, [c])
  }

  function Led(replica: nat, c: Command, seqno: int, deps: seq<int>, now: int): Instance {
    Instance(Some([c]), replica, replica, PREACCEPTED, seqno, deps, Some(FirstLb(replica, c, deps)), 0, 0, now)
  }

  function Heard(replica: nat, c: Command, seqno: int, deps: seq<int>, now: int, status: Status): Instance {
    Instance(Some([c]), replica, replica, status, seqno, deps, None, 0, 0, now)
  }

  /** The leader's entry after the one reply it waits for. */
  function Settled(replica: nat, c: Command, first: seq<int>, seqno: int, deps: seq<int>, now: int): Instance {
    Instance(Some([c]), replica, replica, COMMITTED, seqno, deps,
             Some(FirstLb(replica, c, first).(ballot := replica, preAcceptOKs := 1, seqno := seqno, deps := deps, status := COMMITTED)),
             0, 0, now)
  }

  function A0(): RState { InitialReplica(0, 3, 1) }
  function A1(): RState {
    RState(0, 3, 1, map[X := Led(0, PutX, 0, Nil, 1)], [0, -1, -1], Nil, Conflicts(map[0 := InstPair(0, 0)], map[]),
           map[0 := 0], 0, -1)
  }
  function A2(): RState {
    RState(0, 3, 1, map[X := Led(0, PutX, 0, Nil, 1), Y := Led(0, PutY, 1, [0, -1, -1], 2)], [1, -1, -1], Nil,
           Conflicts(map[0 := InstPair(1, 1)], map[]), map[0 := 1], 1, -1)
  }
  function A3(): RState {
    RState(0, 3, 1,
           map[X := Led(0, PutX, 0, Nil, 1), Y := Led(0, PutY, 1, [0, -1, -1], 2), Z := Heard(1, GetZ, 2, [1, -1, -1], 3, PREACCEPTED)],
           [1, 0, -1], Nil, Conflicts(map[0 := InstPair(1, 1)], map[0 := InstPair(0, -1)]), map[0 := 1], 1, 1)
  }
  function B0(): RState { InitialReplica(1, 3, 1) }
  function B1(): RState {
    RState(1, 3, 1, map[Z := Led(1, GetZ, 0, Nil, 1)], [-1, 0, -1], Nil, Conflicts(map[], map[0 := InstPair(0, -1)]),
           map[0 := 0], 0, -1)
  }
  function B2(): RState {
    RState(1, 3, 1, map[Z := Led(1, GetZ, 0, Nil, 1), Y := Heard(0, PutY, 1, [0, 0, -1], 2, PREACCEPTED)], [1, 0, -1], Nil,
           Conflicts(map[0 := InstPair(1, 1)], map[0 := InstPair(0, -1)]), map[0 := 0], 0, 0)
  }
  function B3(): RState {
    RState(1, 3, 1,
           map[Z := Led(1, GetZ, 0, Nil, 1), Y := Heard(0, PutY, 1, [0, 0, -1], 2, PREACCEPTED),
               X := Heard(0, PutX, 1, [-1, 0, -1], 3, PREACCEPTED)],
           [1, 0, -1], Nil, Conflicts(map[0 := InstPair(1, 1)], map[0 := InstPair(0, -1)]), map[0 := 0], 0, 0)
  }

  /** What the index becomes. */
  lemma Records()
    ensures RecordCommand(map[0 := InstPair(0, 0)], PutY, 1) == map[0 := InstPair(1, 1)]
    ensures RecordCommand(map[], PutY, 1) == map[0 := InstPair(1, 1)]
    ensures RecordCommand(map[0 := InstPair(1, 1)], PutX, 0) == map[0 := InstPair(1, 1)]
    ensures RecordCommand(map[0 := InstPair(1, 1)], PutY, 1) == map[0 := InstPair(1, 1)]
    ensures RecordCommand(map[], GetZ, 0) == map[0 := InstPair(0, -1)] && RecordCommand(map[], PutX, 0) == map[0 := InstPair(0, 0)]
    ensures RecordSeq(map[], PutX, 0) == map[0 := 0] && RecordSeq(map[], GetZ, 0) == map[0 := 0]
    ensures RecordCommand(map[0 := InstPair(0, -1)], GetZ, 0) == map[0 := InstPair(0, -1)]
    ensures RecordSeq(map[0 := 0], PutY, 1) == map[0 := 1] && RecordSeq(map[0 := 0], PutY, -1) == map[0 := 0]
    ensures RecordSeq(map[0 := 0], PutX, -1) == map[0 := 0] && RecordSeq(map[0 := 1], GetZ, -1) == map[0 := 1]
    ensures RecordSeq(map[0 := 1], GetZ, 2) == map[0 := 2] && RecordSeq(map[0 := 1], PutX, 1) == map[0 := 1]
  {
  }

  /** A proposal with the attributes a. */
  lemma ProposeOfThree(st: RState, st': RState, c: Command, now: int, targets: seq<nat>, a: Attributes)
    requires Local(st) && st.n == 3 && |st.crtInstance| == 3 && st.id < 3 && |st.conflicts| == 3
    requires var st1 := st.(crtInstance := st.crtInstance[st.id := st.crtInstance[st.id] + 1]);
      Three(st1, c, 0, Nil, st.id) == a
      && var instance := st.crtInstance[st.id] + 1;
         instance >= 0
         && st' == st1.(space := st.space[Id(st.id, instance) := Led(st.id, c, a.seqno, a.deps, now)],
                        conflicts := st.conflicts[st.id := RecordCommand(st.conflicts[st.id], c, instance)],
                        maxSeqPerKey := RecordSeq(st.maxSeqPerKey, c, a.seqno),
                        maxSeq := Max(st.maxSeq, a.seqno))
    ensures Propose(st, [c], false, now, targets)
         == Outcome(st', Broadcast(st.id, targets, PreAccept(Id(st.id, st.crtInstance[st.id] + 1), st.id, st.id, [c], -1, a.deps)))
  {
    hide UpdateAttributes, UpdateConflicts, Three, RecordCommand, RecordSeq;
    var st1 := st.(crtInstance := st.crtInstance[st.id := st.crtInstance[st.id] + 1]);
    KnownStill(st, st1);
    assert NilDeps(3) == Nil;
    AttributesOfThree(st1, c, 0, Nil, st.id);
    var id := Id(st.id, st.crtInstance[st.id] + 1);
    EpaxosBasic.RecordOne(st1.(space := st.space[id := Led(st.id, c, a.seqno, a.deps, now)]), c, id, a.seqno);
    hide ConflictsKnown;
  }

  lemma ProposeX()
    requires Local(A0())
    ensures Propose(A0(), [PutX], false, 1, [1]) == Outcome(A1(), Broadcast(0, [1], PreAcceptOf(X, PutX, Nil)))
  {
    Records();
    assert A0().crtInstance[0 := 0] == [0, -1, -1];
    ProposeOfThree(A0(), A1(), PutX, 1, [1], Attributes(0, Nil, false));
  }

  lemma ProposeY()
    requires Local(A1())
    ensures Propose(A1(), [PutY], false, 2, [1]) == Outcome(A2(), Broadcast(0, [1], PreAcceptOf(Y, PutY, [0, -1, -1])))
  {
    Records();
    assert A1().crtInstance[0 := 1] == [1, -1, -1];
    ProposeOfThree(A1(), A2(), PutY, 2, [1], Attributes(1, [0, -1, -1], true));
  }

  lemma ProposeZ()
    requires Local(B0())
    ensures Propose(B0(), [GetZ], false, 1, [0]) == Outcome(B1(), Broadcast(1, [0], PreAcceptOf(Z, GetZ, Nil)))
  {
    Records();
    assert B0().crtInstance[1 := 0] == [-1, 0, -1];
    ProposeOfThree(B0(), B1(), GetZ, 1, [0], Attributes(0, Nil, false));
  }

  function PreAcceptOf(id: Id, c: Command, deps: seq<int>): Msg {
    PreAccept(id, id.replica, id.replica, [c], -1, deps)
  }

  function ReplyOf(id: Id, seqno: int, deps: seq<int>): Msg {
    PreAcceptReply(id, id.replica, id.replica, seqno, deps, Nil, PREACCEPTED)
  }

  /** A PreAccept at a replica that does not know the instance, with the attributes a. */
  lemma PreAcceptOfThree(st: RState, st': RState, id: Id, c: Command, deps: seq<int>, now: int, a: Attributes)
    requires Local(st) && st.n == 3 == |deps| && id !in st.space && id.replica < 3 && id.replica != st.id
    requires forall i :: 0 <= i < 3 ==> -1 <= deps[i]
    requires st.maxSeq >= 0 && st.committedUpTo == Nil && a.changed
    requires |st.conflicts| == 3 && Three(st.(space := st.space[id := DefaultInstance(now)]), c, -1, deps, id.replica) == a
    requires st'.space == st.space[id := Heard(id.replica, c, a.seqno, a.deps, now, PREACCEPTED)]
    requires st' == st.(space := st'.space,
                        maxRecvBallot := Max(st.maxRecvBallot, id.replica),
                        crtInstance := st.crtInstance[id.replica := Max(st.crtInstance[id.replica], id.instance)],
                        conflicts := st.conflicts[id.replica := RecordCommand(st.conflicts[id.replica], c, id.instance)],
                        maxSeqPerKey := RecordSeq(st.maxSeqPerKey, c, -1))
    ensures HandlePreAccept(st, PreAcceptOf(id, c, deps), now)
         == Outcome(st', [Packet(st.id, id.replica, ReplyOf(id, a.seqno, a.deps))])
  {
    hide UpdateAttributes, UpdateConflicts, Three, RecordCommand, RecordSeq;
    var m := PreAcceptOf(id, c, deps);
    var st1 := Notice(st, id, id.replica);
    var st2 := st1.(space := st1.space[id := DefaultInstance(now)]);
    KnownStill(st, st2);
    AttributesOfThree(st2, c, -1, deps, id.replica);
    SameThree(st.(space := st2.space), st2, c, -1, deps, id.replica);
    PreAcceptRecords(st2, st', m, c, a, now);
    hide ConflictsKnown, RecordPreAccept;
    assert st.(maxSeq := st.maxSeq) == st;
  }

  lemma SameThree(st: RState, st2: RState, c: Command, seqno: int, deps: seq<int>, replica: nat)
    requires |st.conflicts| == |deps| == 3 && st2.conflicts == st.conflicts && st2.space == st.space && st2.id == st.id
    requires st2.maxSeqPerKey == st.maxSeqPerKey
    ensures Three(st2, c, seqno, deps, replica) == Three(st, c, seqno, deps, replica)
  {
  }

  lemma PreAcceptRecords(st2: RState, st': RState, m: Msg, c: Command, a: Attributes, now: int)
    requires ConflictsKnown(st2) && m.PreAccept? && m.id.replica < st2.n == 3 == |m.deps| && m.command == [c] && m.ballot == m.id.replica
    requires m.id in st2.space && st2.space[m.id] == DefaultInstance(now)
    requires forall i :: 0 <= i < 3 ==> -1 <= m.deps[i]
    requires UpdateAttributes(st2, [c], m.seqno, m.deps, m.id.replica) == a && a.changed
    requires st' == st2.(space := st2.space[m.id := Heard(m.id.replica, c, a.seqno, a.deps, now, PREACCEPTED)],
                         conflicts := st2.conflicts[m.id.replica := RecordCommand(st2.conflicts[m.id.replica], c, m.id.instance)],
                         maxSeqPerKey := RecordSeq(st2.maxSeqPerKey, c, m.seqno))
    ensures RecordPreAccept(st2, m) == st'
  {
    var inst := Heard(m.id.replica, c, a.seqno, a.deps, now, PREACCEPTED);
    EpaxosBasic.RecordOne(st2.(space := st2.space[m.id := inst]), c, m.id, m.seqno);
    hide UpdateAttributes, UpdateConflicts, RecordCommand, RecordSeq, ConflictsKnown;
  }

  lemma KnownStill(st: RState, st2: RState)
    requires Local(st) && st.space.Keys <= st2.space.Keys && st2.conflicts == st.conflicts && st2.n == st.n
    ensures ConflictsKnown(st2)
  {
    forall q, k | 0 <= q < st2.n && k in st2.conflicts[q] ensures PairKnown(st2.space, q, st2.conflicts[q][k]) {
      assert PairKnown(st.space, q, st.conflicts[q][k]);
    }
  }

  lemma HearY()
    requires Local(B1())
    ensures HandlePreAccept(B1(), PreAcceptOf(Y, PutY, [0, -1, -1]), 2) == Outcome(B2(), [Packet(1, 0, ReplyOf(Y, 1, [0, 0, -1]))])
  {
    Records();
    PreAcceptOfThree(B1(), B2(), Y, PutY, [0, -1, -1], 2, Attributes(1, [0, 0, -1], true));
  }

  lemma HearX()
    requires Local(B2())
    ensures HandlePreAccept(B2(), PreAcceptOf(X, PutX, Nil), 3) == Outcome(B3(), [Packet(1, 0, ReplyOf(X, 1, [-1, 0, -1]))])
  {
    Records();
    PreAcceptOfThree(B2(), B3(), X, PutX, Nil, 3, Attributes(1, [-1, 0, -1], true));
  }

  lemma HearZ()
    requires Local(A2())
    ensures HandlePreAccept(A2(), PreAcceptOf(Z, GetZ, Nil), 3) == Outcome(A3(), [Packet(0, 1, ReplyOf(Z, 2, [1, -1, -1]))])
  {
    Records();
    PreAcceptOfThree(A2(), A3(), Z, GetZ, Nil, 3, Attributes(2, [1, -1, -1], true));
  }

  // ---------------------------------------------------------------- commits

  /** The one reply commits the instance on the fast path. */
  lemma CommitOfThree(st: RState, id: Id, c: Command, first: seq<int>, seq0: int, seqno: int, deps: seq<int>, now: int, targets: seq<nat>)
    requires Local(st) && st.n == 3 && st.f == 1 && id.replica == st.id && |first| == |deps| == 3
    requires id in st.space && st.space[id] == Led(st.id, c, seq0, first, now)
    ensures var st1 := st.(maxRecvBallot := Max(st.maxRecvBallot, st.id),
                           space := st.space[id := Settled(st.id, c, first, seqno, deps, now)]);
      HandlePreAcceptReply(st, ReplyOf(id, seqno, deps), targets)
        == Outcome(UpdateCommitted(st1, st.id), Broadcast(st.id, targets, CommitOf(id, c, seqno, deps)))
  {
    hide UpdateCommitted, ConflictsKnown;
    var lb := FirstLb(st.id, c, first);
    var st0 := st.(maxRecvBallot := Max(st.maxRecvBallot, st.id));
    var lb1 := lb.(ballot := st.id, preAcceptOKs := 1, seqno := seqno, deps := deps);
    assert MergeDeps(st.id, deps, deps) == deps;
    assert Tally(st0, st.space[id], lb, ReplyOf(id, seqno, deps)) == (lb1, true);
  }

  function CommitOf(id: Id, c: Command, seqno: int, deps: seq<int>): Msg {
    Commit(id, id.replica, id.replica, [c], seqno, deps)
  }

  /** A Commit at a peer that has heard of the instance. */
  lemma LearnOfThree(st: RState, id: Id, c: Command, seqno: int, deps: seq<int>, now: int, later: int)
    requires Local(st) && id.replica < st.n == 3 && id in st.space
    requires st.space[id] == Heard(id.replica, c, seqno, deps, now, PREACCEPTED)
    requires id.instance <= st.crtInstance[id.replica] && id.replica <= st.maxRecvBallot
    ensures var st1 := st.(space := st.space[id := Heard(id.replica, c, seqno, deps, now, COMMITTED)],
                           conflicts := st.conflicts[id.replica := RecordCommand(st.conflicts[id.replica], c, id.instance)],
                           maxSeqPerKey := RecordSeq(st.maxSeqPerKey, c, seqno));
      HandleCommit(st, CommitOf(id, c, seqno, deps), later) == Outcome(UpdateCommitted(st1, id.replica), [])
  {
    assert |st.conflicts| == st.n;
    hide UpdateCommitted, ConflictsKnown, RecordCommand, RecordSeq;
    var inst := Heard(id.replica, c, seqno, deps, now, COMMITTED);
    EpaxosBasic.RecordOne(st.(space := st.space[id := inst]), c, id, seqno);
    assert st.crtInstance[id.replica := Max(st.crtInstance[id.replica], id.instance)] == st.crtInstance;
    assert Notice(st, id, id.replica) == st;
    assert st.space[id := st.space[id]] == st.space;
  }

  // ---------------------------------------------------------------- the run

  ghost predicate Reached(g: Global) {
    exists run, steps :: IsRun(run, steps) && run[|run| - 1] == g
  }

  lemma ReachedInv(g: Global)
    requires Reached(g)
    ensures Inv(g)
  {
    var run, steps :| IsRun(run, steps) && run[|run| - 1] == g;
    RunInv(run, steps, |run| - 1);
  }

  lemma ReachedNext(g: Global, g': Global, step: Step)
    requires Reached(g) && NextStep(g, g', step)
    ensures Reached(g')
  {
    hide NextStep, Init;
    var run, steps :| IsRun(run, steps) && run[|run| - 1] == g;
    var longer, more := run + [g'], steps + [step];
    forall i | 0 <= i < |more| ensures NextStep(longer[i], longer[i + 1], more[i]) {
      if i < |steps| {
        assert NextStep(run[i], run[i + 1], steps[i]);
      }
    }
    assert IsRun(longer, more);
  }

  lemma ReachedLocal(g: Global, s: nat)
    requires Reached(g) && s < |g.nodes|
    ensures Local(g.nodes[s].rs) && g.n == |g.nodes|
  {
    hide Reached, Leaders, Entries, Packets, EpaxosRounds.Rounds, EpaxosVotes.Votes, EpaxosExecution.Executions, Local;
    ReachedInv(g);
  }

  lemma SingleTarget(st: RState, limit: int, a: nat, m: Msg)
    requires limit >= 1 && a < st.n && a != st.id
    ensures TargetsOk(st, limit, [a]) && SetOf(Broadcast(st.id, [a], m)) == {Packet(st.id, a, m)}
    ensures TargetsOk(st, limit, [])
  {
    var out := Broadcast(st.id, [a], m);
    assert out[0] == Packet(st.id, a, m) && out[0] in SetOf(out);
  }

  /** A proposal takes place, and its one PreAccept is on its way. */
  lemma DoPropose(g: Global, s: nat, a: nat, c: Command, now: int, st': RState, m: Msg) returns (g': Global)
    requires Reached(g) && s < |g.nodes| && Local(g.nodes[s].rs) && g.nodes[s].rs.id == s && WellFormed(c) && g.f == 1
    requires a < g.nodes[s].rs.n && a != s
    requires Propose(g.nodes[s].rs, [c], false, now, [a]) == Outcome(st', Broadcast(s, [a], m))
    ensures Reached(g') && g' == g.(nodes := g.nodes[s := g.nodes[s].(rs := st')], net := g.net + {Packet(s, a, m)}, sent := g'.sent)
  {
    hide Propose, Local, TargetsOk, Reached;
    SingleTarget(g.nodes[s].rs, 1, a, m);
    g' := g.(nodes := g.nodes[s := g.nodes[s].(rs := st')], net := g.net + {Packet(s, a, m)}, sent := g.sent + {Packet(s, a, m)});
    assert ProposeStep(g, g', s, c, false, now, [a]);
    ReachedNext(g, g', Proposing(s, c, false, now, [a]));
  }

  /** A message arrives, and its answer is on its way. */
  lemma DoDeliver(g: Global, p: Packet, now: int, targets: seq<nat>, st': RState, out: seq<Packet>) returns (g': Global)
    requires Reached(g) && p in g.net && p.dst < |g.nodes| && CanHandle(g.nodes[p.dst].rs, p.msg)
    requires TargetsOk(g.nodes[p.dst].rs, g.n, targets)
    requires Handle(g.nodes[p.dst].rs, p.msg, now, targets) == Outcome(st', out)
    ensures Reached(g') && g' == g.(nodes := g.nodes[p.dst := g.nodes[p.dst].(rs := st')], net := g.net - {p} + SetOf(out), sent := g'.sent)
  {
    hide Handle, CanHandle, TargetsOk, Reached;
    g' := g.(nodes := g.nodes[p.dst := g.nodes[p.dst].(rs := st')], net := g.net - {p} + SetOf(out), sent := g.sent + SetOf(out));
    assert DeliverStep(g, g', p, now, targets);
    ReachedNext(g, g', Delivering(p, now, targets));
  }

  lemma Handleable(g: Global, p: Packet)
    requires Reached(g) && p in g.net
    ensures p.dst < |g.nodes| && CanHandle(g.nodes[p.dst].rs, p.msg)
  {
    hide NextStep, CanHandle;
    var run, steps :| IsRun(run, steps) && run[|run| - 1] == g;
    EveryMessageCanBeHandled(run, steps, |run| - 1, p);
  }

  ghost function Idle(init: Store): Execution {
    Execution([], init, [])
  }

  ghost function Start(init: Store): Global {
    Global(3, 1, init, [Node(A0(), Idle(init)), Node(B0(), Idle(init)), Node(InitialReplica(2, 3, 1), Idle(init))], {}, {})
  }

  lemma StartReached(init: Store)
    ensures Reached(Start(init))
  {
    var g := Start(init);
    assert Init(g);
    assert IsRun([g], []);
  }

  const PX: Packet := Packet(0, 1, PreAcceptOf(X, PutX, Nil))
  const PY: Packet := Packet(0, 1, PreAcceptOf(Y, PutY, [0, -1, -1]))
  const PZ: Packet := Packet(1, 0, PreAcceptOf(Z, GetZ, Nil))
  const RX: Packet := Packet(1, 0, ReplyOf(X, 1, [-1, 0, -1]))
  const RY: Packet := Packet(1, 0, ReplyOf(Y, 1, [0, 0, -1]))
  const RZ: Packet := Packet(0, 1, ReplyOf(Z, 2, [1, -1, -1]))
  const CX: Packet := Packet(0, 1, CommitOf(X, PutX, 1, [-1, 0, -1]))
  const CY: Packet := Packet(0, 1, CommitOf(Y, PutY, 1, [0, 0, -1]))
  const CZ: Packet := Packet(1, 0, CommitOf(Z, GetZ, 2, [1, -1, -1]))

  /** Replicas 0 and 1 are in states a and b and have executed nothing. */
  ghost predicate AtStates(g: Global, init: Store, a: RState, b: RState) {
    && Reached(g) && g.n == 3 && g.f == 1 && g.init == init && |g.nodes| == 3
    && g.nodes[0] == Node(a, Idle(init)) && g.nodes[1] == Node(b, Idle(init))
  }

  lemma FirstProposals(init: Store) returns (g: Global)
    ensures AtStates(g, init, A1(), B1()) && PX in g.net && PZ in g.net
  {
    hide Reached, Propose, Local, B1, A1;
    g := Start(init);
    StartReached(init);
    ReachedLocal(g, 1);
    ProposeZ();
    g := DoPropose(g, 1, 0, GetZ, 1, B1(), PZ.msg);
    ReachedLocal(g, 0);
    ProposeX();
    g := DoPropose(g, 0, 1, PutX, 1, A1(), PX.msg);
  }

  lemma AllPropose(init: Store) returns (g: Global)
    ensures AtStates(g, init, A2(), B1()) && PX in g.net && PY in g.net && PZ in g.net
  {
    hide Reached, Propose, Local, A2, B1, A1, Idle;
    g := FirstProposals(init);
    ReachedLocal(g, 0);
    Ids();
    ProposeY();
    g := DoPropose(g, 0, 1, PutY, 2, A2(), PY.msg);
  }

  lemma Ids()
    ensures A1().id == A2().id == A3().id == 0 && B1().id == B2().id == B3().id == 1
    ensures A1().n == A2().n == A3().n == B1().n == B2().n == B3().n == 3
  {
  }

  lemma OneOut(p: Packet)
    ensures SetOf([p]) == {p} && SetOf([]) == {}
  {
  }

  lemma NoTargets(st: RState, limit: int)
    requires limit >= 0
    ensures TargetsOk(st, limit, [])
  {
  }

  /** All three PreAccepts arrive: replica 1 hears of Y before it hears of X. */
  lemma AllHear(init: Store) returns (g: Global)
    ensures AtStates(g, init, A3(), B3()) && RX in g.net && RY in g.net && RZ in g.net
  {
    hide Reached, HandlePreAccept, Local, CanHandle, A2, B1, A3, B2, B3, SetOf, TargetsOk;
    g := AllPropose(init);
    Handleable(g, PY);
    ReachedLocal(g, 1);
    HearY();
    NoTargets(B1(), 3);
    OneOut(RY);
    g := DoDeliver(g, PY, 2, [], B2(), [RY]);
    Handleable(g, PX);
    ReachedLocal(g, 1);
    HearX();
    NoTargets(B2(), 3);
    OneOut(RX);
    g := DoDeliver(g, PX, 3, [], B3(), [RX]);
    Handleable(g, PZ);
    ReachedLocal(g, 0);
    HearZ();
    NoTargets(A2(), 3);
    OneOut(RZ);
    g := DoDeliver(g, PZ, 3, [], A3(), [RZ]);
  }

  /** A state with a given space, whose other fields a commit does not depend on. */
  ghost predicate Like(st: RState, id: nat, space: Space, crt: seq<int>) {
    st.id == id && st.n == 3 && st.f == 1 && st.space == space && st.crtInstance == crt
  }

  lemma UpdateCommittedLike(st: RState, id: nat, space: Space, crt: seq<int>, q: nat)
    requires Like(st, id, space, crt) && Local(st) && q < 3
    ensures Like(UpdateCommitted(st, q), id, space, crt)
    ensures UpdateCommitted(st, q).maxRecvBallot == st.maxRecvBallot
  {
  }

  /** The reply to a leader arrives and commits. */
  lemma DoCommit(g: Global, p: Packet, id: Id, other: nat, c: Command, first: seq<int>, seq0: int, seqno: int, deps: seq<int>,
                 now: int, space: Space) returns (g': Global)
    requires Reached(g) && p in g.net && p == Packet(other, id.replica, ReplyOf(id, seqno, deps)) && id.replica < 2 && other < 2
    requires other != id.replica && |first| == |deps| == 3 && |g.nodes| == 3
    requires Like(g.nodes[id.replica].rs, id.replica, space, [1, 0, -1])
    requires id in space && space[id] == Led(id.replica, c, seq0, first, now)
    ensures Reached(g') && |g'.nodes| == 3 && g'.n == g.n && g'.f == g.f && g'.init == g.init
    ensures g'.nodes[other] == g.nodes[other] && g'.nodes[id.replica].ex == g.nodes[id.replica].ex
    ensures g'.net == g.net - {p} + {Packet(id.replica, other, CommitOf(id, c, seqno, deps))}
    ensures Like(g'.nodes[id.replica].rs, id.replica, space[id := Settled(id.replica, c, first, seqno, deps, now)], [1, 0, -1])
    ensures g'.nodes[id.replica].rs.maxRecvBallot >= g.nodes[id.replica].rs.maxRecvBallot
  {
    hide Reached, HandlePreAcceptReply, CanHandle, SetOf, TargetsOk, UpdateCommitted;
    var s := id.replica;
    var st := g.nodes[s].rs;
    Handleable(g, p);
    ReachedLocal(g, s);
    CommitOfThree(st, id, c, first, seq0, seqno, deps, now, [other]);
    SingleTarget(st, 3, other, CommitOf(id, c, seqno, deps));
    var space' := space[id := Settled(s, c, first, seqno, deps, now)];
    var st1 := st.(maxRecvBallot := Max(st.maxRecvBallot, s), space := space');
    StillLocal(st, st1);
    UpdateCommittedLike(st1, s, space', [1, 0, -1], s);
    g' := DoDeliver(g, p, 0, [other], UpdateCommitted(st1, s), Broadcast(s, [other], CommitOf(id, c, seqno, deps)));
  }

  lemma StillLocal(st: RState, st1: RState)
    requires Local(st) && st.space.Keys <= st1.space.Keys
    requires st1 == st.(maxRecvBallot := st1.maxRecvBallot, space := st1.space)
    ensures Local(st1)
  {
    KnownStill(st, st1);
  }

  /** A Commit arrives at a peer that has heard of the instance. */
  lemma DoLearn(g: Global, p: Packet, id: Id, other: nat, c: Command, seqno: int, deps: seq<int>, now: int, space: Space) returns (g': Global)
    requires Reached(g) && p in g.net && p == Packet(id.replica, other, CommitOf(id, c, seqno, deps)) && id.replica < 2 && other < 2
    requires other != id.replica && |g.nodes| == 3 && |deps| == 3
    requires Like(g.nodes[other].rs, other, space, [1, 0, -1]) && id.replica <= g.nodes[other].rs.maxRecvBallot
    requires id in space && space[id] == Heard(id.replica, c, seqno, deps, now, PREACCEPTED) && id.instance <= (if id.replica == 0 then 1 else 0)
    ensures Reached(g') && |g'.nodes| == 3 && g'.n == g.n && g'.f == g.f && g'.init == g.init
    ensures g'.nodes[id.replica] == g.nodes[id.replica] && g'.nodes[other].ex == g.nodes[other].ex
    ensures g'.net == g.net - {p}
    ensures Like(g'.nodes[other].rs, other, space[id := Heard(id.replica, c, seqno, deps, now, COMMITTED)], [1, 0, -1])
    ensures g'.nodes[other].rs.maxRecvBallot == g.nodes[other].rs.maxRecvBallot
  {
    hide Reached, HandleCommit, CanHandle, SetOf, TargetsOk, UpdateCommitted, RecordCommand, RecordSeq;
    var st := g.nodes[other].rs;
    Handleable(g, p);
    ReachedLocal(g, other);
    LearnOfThree(st, id, c, seqno, deps, now, 0);
    NoTargets(st, 3);
    OneOut(p);
    var space' := space[id := Heard(id.replica, c, seqno, deps, now, COMMITTED)];
    var st1 := st.(space := space',
                   conflicts := st.conflicts[id.replica := RecordCommand(st.conflicts[id.replica], c, id.instance)],
                   maxSeqPerKey := RecordSeq(st.maxSeqPerKey, c, seqno));
    LearnLike(st1, other, space', id.replica);
    g' := DoDeliver(g, p, 0, [], UpdateCommitted(st1, id.replica), []);
  }

  lemma LearnLike(st: RState, id: nat, space: Space, q: nat)
    requires Like(st, id, space, [1, 0, -1]) && q < |st.committedUpTo| && st.committedUpTo[q] >= -1
    ensures Like(UpdateCommitted(st, q), id, space, [1, 0, -1])
    ensures UpdateCommitted(st, q).maxRecvBallot == st.maxRecvBallot
  {
  }

  function SpaceA(): Space {
    map[X := Settled(0, PutX, Nil, 1, [-1, 0, -1], 1), Y := Settled(0, PutY, [0, -1, -1], 1, [0, 0, -1], 2),
        Z := Heard(1, GetZ, 2, [1, -1, -1], 3, COMMITTED)]
  }

  function SpaceB(): Space {
    map[X := Heard(0, PutX, 1, [-1, 0, -1], 3, COMMITTED), Y := Heard(0, PutY, 1, [0, 0, -1], 2, COMMITTED),
        Z := Settled(1, GetZ, Nil, 2, [1, -1, -1], 1)]
  }

  /** What the commits leave. */
  ghost predicate Finished(g: Global, init: Store) {
    && Reached(g) && g.n == 3 && g.f == 1 && g.init == init && |g.nodes| == 3
    && g.nodes[0].rs.space == SpaceA() && g.nodes[1].rs.space == SpaceB()
    && g.nodes[0].ex == Idle(init) && g.nodes[1].ex == Idle(init)
  }

  function LedA(): Space {
    A3().space[X := Settled(0, PutX, Nil, 1, [-1, 0, -1], 1)][Y := Settled(0, PutY, [0, -1, -1], 1, [0, 0, -1], 2)]
  }

  function LedB(): Space {
    B3().space[Z := Settled(1, GetZ, Nil, 2, [1, -1, -1], 1)]
  }

  lemma BeforeCommits()
    ensures Like(A3(), 0, A3().space, [1, 0, -1]) && A3().maxRecvBallot == 1
    ensures Like(B3(), 1, B3().space, [1, 0, -1]) && B3().maxRecvBallot == 0
    ensures X in A3().space && A3().space[X] == Led(0, PutX, 0, Nil, 1)
    ensures Y in A3().space && A3().space[Y] == Led(0, PutY, 1, [0, -1, -1], 2)
    ensures Z in B3().space && B3().space[Z] == Led(1, GetZ, 0, Nil, 1)
  {
  }

  lemma AfterCommits()
    ensures Z in LedA() && LedA()[Z] == Heard(1, GetZ, 2, [1, -1, -1], 3, PREACCEPTED)
    ensures X in LedB() && LedB()[X] == Heard(0, PutX, 1, [-1, 0, -1], 3, PREACCEPTED)
    ensures Y in LedB() && LedB()[Y] == Heard(0, PutY, 1, [0, 0, -1], 2, PREACCEPTED)
    ensures LedA()[Z := Heard(1, GetZ, 2, [1, -1, -1], 3, COMMITTED)] == SpaceA()
    ensures LedB()[X := Heard(0, PutX, 1, [-1, 0, -1], 3, COMMITTED)][Y := Heard(0, PutY, 1, [0, 0, -1], 2, COMMITTED)] == SpaceB()
  {
    hide Led, Settled, Heard;
  }

  /** The leaders commit. */
  lemma LeadersCommit(init: Store) returns (g: Global)
    ensures Reached(g) && g.n == 3 && g.f == 1 && g.init == init && |g.nodes| == 3
    ensures Like(g.nodes[0].rs, 0, LedA(), [1, 0, -1]) && g.nodes[0].rs.maxRecvBallot >= 1 && g.nodes[0].ex == Idle(init)
    ensures Like(g.nodes[1].rs, 1, LedB(), [1, 0, -1]) && g.nodes[1].rs.maxRecvBallot >= 0 && g.nodes[1].ex == Idle(init)
    ensures CX in g.net && CY in g.net && CZ in g.net
  {
    hide Reached, Settled, Heard, Led, A3, B3, Like, Idle;
    g := AllHear(init);
    BeforeCommits();
    var a0 := A3().space;
    g := DoCommit(g, RX, X, 1, PutX, Nil, 0, 1, [-1, 0, -1], 1, a0);
    var a1 := a0[X := Settled(0, PutX, Nil, 1, [-1, 0, -1], 1)];
    g := DoCommit(g, RY, Y, 1, PutY, [0, -1, -1], 1, 1, [0, 0, -1], 2, a1);
    g := DoCommit(g, RZ, Z, 0, GetZ, Nil, 0, 2, [1, -1, -1], 1, B3().space);
  }

  lemma AllCommit(init: Store) returns (g: Global)
    ensures Finished(g, init)
  {
    hide Reached, Settled, Heard, Led, LedA, LedB, SpaceA, SpaceB, Idle;
    g := LeadersCommit(init);
    AfterCommits();
    g := DoLearn(g, CZ, Z, 0, GetZ, 2, [1, -1, -1], 3, LedA());
    g := DoLearn(g, CX, X, 1, PutX, 1, [-1, 0, -1], 3, LedB());
    g := DoLearn(g, CY, Y, 1, PutY, 1, [0, 0, -1], 2, LedB()[X := Heard(0, PutX, 1, [-1, 0, -1], 3, COMMITTED)]);
  }

  /** Everything executed. */
  function Executed(space: Space): Space {
    map id | id in space :: space[id].(status := EXECUTED)
  }

  lemma ExecutedFrame(space: Space)
    requires forall id :: id in space ==> space[id].status == COMMITTED
    ensures SearchFrame(space, Executed(space))
  {
  }

  lemma GraphIs(space: Space, g: Graph)
    requires space.Keys == g.Keys
    requires forall id :: id in space ==> Decided(space[id]) && space[id].cmds.Some? && AttrsOf(space[id]) == g[id]
    ensures GraphOf(space) == g
  {
  }

  lemma AttributesInSpaces()
    ensures SpaceA().Keys == SpaceB().Keys == {X, Y, Z}
    ensures forall id :: id in SpaceA() ==> SpaceA()[id].status == COMMITTED && SpaceA()[id].cmds.Some?
    ensures forall id :: id in SpaceB() ==> SpaceB()[id].status == COMMITTED && SpaceB()[id].cmds.Some?
    ensures forall id :: id in SpaceA() ==> id in TiedGraph() && AttrsOf(SpaceA()[id]) == TiedGraph()[id]
    ensures forall id :: id in SpaceB() ==> id in TiedGraph() && AttrsOf(SpaceB()[id]) == TiedGraph()[id]
  {
  }

  lemma SameTiedGraph()
    ensures GraphOf(Executed(SpaceA())) == TiedGraph() && GraphOf(Executed(SpaceB())) == TiedGraph()
    ensures SearchFrame(SpaceA(), Executed(SpaceA())) && SearchFrame(SpaceB(), Executed(SpaceB()))
  {
    AttributesInSpaces();
    TiedKeys();
    hide SpaceA, SpaceB, TiedGraph, SearchFrame, GraphOf;
    ExecutedFrame(SpaceA());
    ExecutedFrame(SpaceB());
    GraphIs(Executed(SpaceA()), TiedGraph());
    GraphIs(Executed(SpaceB()), TiedGraph());
  }

  /** The tied PUTs, in the order of the local clock, are a correct execution. */
  lemma ExecutionIsOk(init: Store, space: Space, ex: Execution, first: Id, second: Id)
    requires (first == X && second == Y) || (first == Y && second == X)
    requires space.Keys == {X, Y, Z} && space[first].proposeTime < space[second].proposeTime
    requires GraphOf(Executed(space)) == TiedGraph()
    requires forall id :: id in space ==> space[id].cmds.Some? && !Waits(space[id])
    requires Runnable(BatchesOf(TiedGraph()), [first, second, Z])
    requires ex == Execution([first, second, Z], Final(init, BatchesOf(TiedGraph()), [first, second, Z]), [])
    ensures ExecutionOk(init, Executed(space), ex)
  {
    hide ValidLog, Final, TiedGraph, GraphOf, BatchesOf, Runnable;
    var space' := Executed(space);
    assert TimesOf(space')[first] < TimesOf(space')[second];
    TiedLogIsValid(TimesOf(space'), first, second);
    assert LogIsExecuted(space', ex.log) && AllUnvisited(space');
    assert ReplayOk(init, TiedGraph(), ex.store, ex.replies, ex.log);
    assert RepliesComplete(space', true, [], ex.log);
  }

  /** Replica s runs its executor: the tied PUTs go in the order of its own clock. */
  lemma DoExecute(g: Global, s: nat, init: Store, space: Space, first: Id, second: Id) returns (g': Global)
    requires Reached(g) && s < |g.nodes| && g.nodes[s].rs.space == space && g.nodes[s].ex == Idle(init) && g.init == init
    requires (first == X && second == Y) || (first == Y && second == X)
    requires space.Keys == {X, Y, Z} && space[first].proposeTime < space[second].proposeTime
    requires GraphOf(Executed(space)) == TiedGraph() && SearchFrame(space, Executed(space))
    requires forall id :: id in space ==> space[id].cmds.Some? && !Waits(space[id])
    ensures Runnable(BatchesOf(TiedGraph()), [first, second, Z])
    ensures Reached(g') && |g'.nodes| == |g.nodes| && g'.init == g.init && g'.n == g.n && g'.f == g.f
    ensures forall r :: 0 <= r < |g.nodes| && r != s ==> g'.nodes[r] == g.nodes[r]
    ensures GraphOf(g'.nodes[s].rs.space) == TiedGraph()
    ensures g'.nodes[s].ex.log == [first, second, Z]
    ensures g'.nodes[s].ex.store == Final(init, BatchesOf(TiedGraph()), [first, second, Z])
  {
    hide Reached, ValidLog, Final, TiedGraph, GraphOf, SearchFrame, ExecutionOk, Executed, BatchesOf, Runnable;
    var log, space' := [first, second, Z], Executed(space);
    Stores(init);
    var ex := Execution(log, Final(init, BatchesOf(TiedGraph()), log), []);
    ExecutionIsOk(init, space, ex, first, second);
    g' := g.(nodes := g.nodes[s := Node(g.nodes[s].rs.(space := space'), ex)]);
    assert Idle(init).log == [] && ex.log[..0] == [];
    assert ExecuteStep(g, g', s, space', ex);
    ReachedNext(g, g', Executing(s, space', ex));
  }

  /** A failure-free run of three replicas after which replicas 0 and 1 have executed the same three
      instances, agree on all their attributes, and hold different stores. */
  lemma ReplicasDiverge(init: Store) returns (g: Global)
    ensures Reached(g) && g.n == 3 && g.f == 1 && g.init == init && |g.nodes| == 3
    ensures GraphOf(g.nodes[0].rs.space) == GraphOf(g.nodes[1].rs.space)
    ensures Elems(g.nodes[0].ex.log) == Elems(g.nodes[1].ex.log) == {X, Y, Z}
    ensures g.nodes[0].ex.store != g.nodes[1].ex.store
  {
    hide Reached, Final, SpaceA, SpaceB, SearchFrame, GraphOf, TiedGraph;
    g := AllCommit(init);
    SameTiedGraph();
    SpaceFacts();
    g := DoExecute(g, 0, init, SpaceA(), X, Y);
    g := DoExecute(g, 1, init, SpaceB(), Y, X);
    Stores(init);
    ThreeElems(X, Y);
    ThreeElems(Y, X);
  }

  lemma SpaceFacts()
    ensures SpaceA().Keys == {X, Y, Z} && SpaceA()[X].proposeTime < SpaceA()[Y].proposeTime
    ensures SpaceB().Keys == {X, Y, Z} && SpaceB()[Y].proposeTime < SpaceB()[X].proposeTime
    ensures forall id :: id in SpaceA() ==> SpaceA()[id].cmds.Some? && !Waits(SpaceA()[id])
    ensures forall id :: id in SpaceB() ==> SpaceB()[id].cmds.Some? && !Waits(SpaceB()[id])
  {
  }
}
