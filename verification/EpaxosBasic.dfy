/** Every step of failure-free EPaxos keeps the invariant Basic. */
module EpaxosBasic {
  import opened State
  import opened Sequences
  import opened Traces
  import opened DepGraph
  import opened Options
  import opened EpaxosTypes
  import opened EpaxosSpec
  import opened EpaxosProtocol
  import opened SccSearch

  // ---------------------------------------------------------------- the conflict index

  lemma RecordOne(st: RState, c: Command, id: Id, seqno: int)
    requires id.replica < |st.conflicts|
    ensures UpdateConflicts(st, [c], id, seqno)
         == st.(conflicts := st.conflicts[id.replica := RecordCommand(st.conflicts[id.replica], c, id.instance)],
                maxSeqPerKey := RecordSeq(st.maxSeqPerKey, c, seqno))
  {
    assert [c][..0] == [];
    assert RecordCommands(st.conflicts[id.replica], [], id.instance) == st.conflicts[id.replica];
    assert RecordSeqs(st.maxSeqPerKey, [], seqno) == st.maxSeqPerKey;
  }

  /** Recording one command of instance id: the index knows it, and forgets nothing. */
  lemma RecordKeepsLocal(st: RState, c: Command, id: Id, seqno: int)
    requires Local(st) && id.replica < st.n && id in st.space
    ensures Local(UpdateConflicts(st, [c], id, seqno))
    ensures IndexGrows(st, UpdateConflicts(st, [c], id, seqno))
    ensures Indexed(UpdateConflicts(st, [c], id, seqno), id, c)
  {
    var st' := UpdateConflicts(st, [c], id, seqno);
    var column := st.conflicts[id.replica];
    assert [c][..0] == [];
    assert RecordCommands(column, [c], id.instance) == RecordCommand(RecordCommands(column, [], id.instance), c, id.instance);
    assert st'.conflicts[id.replica] == RecordCommand(column, c, id.instance);
    forall q, k | 0 <= q < st'.n && k in st'.conflicts[q] ensures PairKnown(st'.space, q, st'.conflicts[q][k]) {
      if q == id.replica && k == c.k {
        assert k in column ==> PairKnown(st.space, q, column[k]);
      } else {
        assert k in st.conflicts[q];
      }
    }
    forall x, d | Indexed(st, x, d) ensures Indexed(st', x, d) {
      if x.replica == id.replica && d.k == c.k {
        assert PairKnown(st.space, x.replica, column[c.k]);
      }
    }
  }

  /** A larger instance space keeps the index known. */
  lemma LargerSpaceLocal(st: RState, st': RState)
    requires Local(st) && st.space.Keys <= st'.space.Keys
    requires st'.id == st.id && st'.n == st.n && st'.conflicts == st.conflicts
    requires |st'.crtInstance| == |st'.committedUpTo| == st.n
    requires forall q :: 0 <= q < st.n ==> -1 <= st'.committedUpTo[q] && -1 <= st'.crtInstance[q]
    ensures Local(st') && IndexGrows(st, st')
  {
    forall q, k | 0 <= q < st'.n && k in st'.conflicts[q] ensures PairKnown(st'.space, q, st'.conflicts[q][k]) {
      assert PairKnown(st.space, q, st.conflicts[q][k]);
    }
  }

  // ---------------------------------------------------------------- one replica, one entry

  function CrtAt(st: RState): int {
    if st.id < |st.crtInstance| then st.crtInstance[st.id] else -1
  }

  /** The replica moves from st to st', and of its instance space only the entry of id changes. */
  ghost predicate LocalStep(st: RState, st': RState, id: Id) {
    && Local(st') && IndexGrows(st, st')
    && id in st'.space && st'.space == st.space[id := st'.space[id]]
    && st'.id == st.id && st'.n == st.n && st'.f == st.f
    && CrtAt(st) <= CrtAt(st')
  }

  lemma StepTouch(g: Global, g': Global, s: nat, id: Id)
    requires s < |g.nodes| == |g'.nodes| && g'.n == g.n && g'.f == g.f && g'.init == g.init
    requires g.nodes[s].rs.id == s
    requires g'.nodes == g.nodes[s := g.nodes[s].(rs := g'.nodes[s].rs)]
    requires LocalStep(g.nodes[s].rs, g'.nodes[s].rs, id)
    requires g.sent <= g'.sent && forall p :: Delivered(g, p) ==> Delivered(g', p)
    ensures Touch(g, g', s, id)
    ensures LeaderForward(g, g', s, id) ==> Evolves(g, g')
  {
    hide Local, IndexGrows;
    if LeaderForward(g, g', s, id) {
      TouchEvolves(g, g', s, id);
    }
  }

  // ---------------------------------------------------------------- propose

  function NextId(st: RState): Id
    requires st.id < |st.crtInstance| && -1 <= st.crtInstance[st.id]
  {
    Id(st.id, st.crtInstance[st.id] + 1)
  }

  lemma NextIdIsNew(g: Global, s: nat)
    requires Basic(g) && s < g.n
    ensures NextId(g.nodes[s].rs) !in Sp(g, s) && !Started(g, NextId(g.nodes[s].rs))
  {
    hide LeaderOk, PacketOk, EntryOk, ConflictsKnown, Indexed;
  }

  lemma ProposeLocal(st: RState, c: Command, waits: bool, now: int, targets: seq<nat>)
    requires Local(st) && NextId(st) !in st.space && WellFormed(c)
    ensures var o, id := Propose(st, [c], waits, now, targets), NextId(st);
      && Local(o.st) && IndexGrows(st, o.st) && Indexed(o.st, id, c)
      && o.st.id == st.id && o.st.n == st.n && o.st.f == st.f
      && id in o.st.space && o.st.space == st.space[id := o.st.space[id]] && o.st.space[id].lb.Some?
      && LeaderOk(st.n, id, o.st.space[id]) && Open(o.st.space[id].lb.value) && o.st.space[id].index == 0
      && o.st.space[id].lb.value.cmds == [c] && o.st.space[id].lb.value.preAcceptOKs == 0
      && o.st.crtInstance == st.crtInstance[st.id := st.crtInstance[st.id] + 1]
      && o.out == Broadcast(st.id, targets, PreAccept(id, st.id, st.id, [c], -1, o.st.space[id].lb.value.originalDeps))
  {
    hide IndexGrows, Indexed, ConflictsKnown, LeaderOk, UpdateAttributes, UpdateConflicts;
    var o, id := Propose(st, [c], waits, now, targets), NextId(st);
    var st1 := st.(crtInstance := st.crtInstance[st.id := st.crtInstance[st.id] + 1]);
    LargerSpaceLocal(st, st1);
    var a := UpdateAttributes(st1, [c], 0, NilDeps(st.n), st.id);
    AttributesGrow(st1, [c], 0, NilDeps(st.n), st.id);
    var lb := NewLeaderBookkeeping(waits, st.n, a.deps, st.id, [c]);
    var inst := Instance(Some([c]), st.id, st.id, PREACCEPTED, a.seqno, a.deps, Some(lb), 0, 0, now);
    NewInstanceOk(st.n, id, inst, c, waits, now, a.seqno, a.deps);
    var st2 := st1.(space := st1.space[id := inst]);
    LargerSpaceLocal(st1, st2);
    RecordKeepsLocal(st2, c, id, a.seqno);
    SameButIndex(st2, [c], id, a.seqno);
    var st3 := UpdateConflicts(st2, [c], id, a.seqno);
    LargerSpaceLocal(st3, o.st);
    IndexedStays(st3, o.st, id, c);
    IndexGrowsTrans(st, st1, st2);
    IndexGrowsTrans(st, st2, st3);
    IndexGrowsTrans(st, st3, o.st);
  }

  lemma IndexedStays(a: RState, b: RState, id: Id, c: Command)
    requires IndexGrows(a, b) && Indexed(a, id, c)
    ensures Indexed(b, id, c)
  {
  }

  lemma SameButIndex(st: RState, cmds: seq<Command>, id: Id, seqno: int)
    requires Local(st) && id.replica < st.n
    ensures id.replica < |st.conflicts|
    ensures var st' := UpdateConflicts(st, cmds, id, seqno);
      st' == st.(conflicts := st'.conflicts, maxSeqPerKey := st'.maxSeqPerKey)
  {
  }

  /** The leader's new entry. */
  lemma NewInstanceOk(n: nat, id: Id, inst: Instance, c: Command, waits: bool, now: int, seqno: int, deps: seq<int>)
    requires |deps| == n && AtLeastNil(deps) && id.replica < n && WellFormed(c)
    requires inst == Instance(Some([c]), id.replica, id.replica, PREACCEPTED, seqno, deps,
                              Some(NewLeaderBookkeeping(waits, n, deps, id.replica, [c])), 0, 0, now)
    ensures LeaderOk(n, id, inst) && Open(inst.lb.value)
  {
  }

  /** updateAttributes only raises deps, and not the column of the leader at another replica. */
  lemma AttributesGrow(st: RState, cmds: seq<Command>, seqno: int, deps: seq<int>, replica: nat)
    requires ConflictsKnown(st) && |deps| == st.n && AtLeastNil(deps)
    ensures var a := UpdateAttributes(st, cmds, seqno, deps, replica);
      GeDeps(a.deps, deps) && AtLeastNil(a.deps)
      && (st.id != replica && replica < st.n ==> a.deps[replica] == deps[replica])
  {
  }

  /** What a proposal does to the global state, from the point of view of the other proofs. */
  lemma ProposeFacts(g: Global, g': Global, s: nat, c: Command, waits: bool, now: int, targets: seq<nat>)
    requires Basic(g) && ProposeStep(g, g', s, c, waits, now, targets)
    ensures s < |g.nodes| == |g'.nodes| && Local(g.nodes[s].rs) && g.nodes[s].rs.id == s && g.f >= 1 && WellFormed(c)
    ensures g.nodes[s].rs.n == g.n == |g.nodes| && g.nodes[s].rs.f == g.f
    ensures TargetsOk(g.nodes[s].rs, FastQuorumSize(g.f) - 1, targets) && g.net <= g.sent
    ensures g'.nodes[s].rs == Propose(g.nodes[s].rs, [c], waits, now, targets).st
    ensures |g.nodes[s].rs.crtInstance| == g.n
    ensures g'.nodes[s].rs.crtInstance == g.nodes[s].rs.crtInstance[s := g.nodes[s].rs.crtInstance[s] + 1]
    ensures var id, rs' := NextId(g.nodes[s].rs), g'.nodes[s].rs;
      && id !in Sp(g, s) && !Started(g, id) && id in rs'.space && rs'.space[id].lb.Some?
      && Open(rs'.space[id].lb.value) && rs'.space[id].lb.value.cmds == [c] && rs'.space[id].lb.value.preAcceptOKs == 0
      && LeaderOk(g.n, id, rs'.space[id]) && Indexed(rs', id, c) && rs'.space[id].index == 0
      && var out := SetOf(Broadcast(s, targets, PreAccept(id, s, s, [c], -1, rs'.space[id].lb.value.originalDeps)));
         g'.net == g.net + out && g'.sent == g.sent + out
    ensures Touch(g, g', s, NextId(g.nodes[s].rs))
  {
    hide LeaderOk, Entries, Leaders, PacketOk, ConflictsKnown, IndexGrows, Indexed, Propose, Open;
    var rs := g.nodes[s].rs;
    NextIdIsNew(g, s);
    ProposeLocal(rs, c, waits, now, targets);
  }

  lemma BasicPropose(g: Global, g': Global, s: nat, c: Command, waits: bool, now: int, targets: seq<nat>)
    requires Basic(g) && ProposeStep(g, g', s, c, waits, now, targets)
    ensures Basic(g') && Evolves(g, g') && Touch(g, g', s, NextId(g.nodes[s].rs))
  {
    ProposeFacts(g, g', s, c, waits, now, targets);
    hide Basic, ProposeStep, Local, Indexed, Open, IndexGrows, LeaderOk, TargetsOk, Propose, Broadcast;
    var id := NextId(g.nodes[s].rs);
    var m := PreAccept(id, s, s, [c], -1, g'.nodes[s].rs.space[id].lb.value.originalDeps);
    assert LeaderForward(g, g', s, id);
    TouchEvolves(g, g', s, id);
    ProposedEntry(g, g', s, id, c, targets, m);
    CrtOfNext(g, g', s);
    TouchBasic(g, g', s, id);
  }

  lemma CrtOfNext(g: Global, g': Global, s: nat)
    requires s < |g.nodes| == |g'.nodes| && Local(g.nodes[s].rs) && g.nodes[s].rs.id == s
    requires g'.nodes[s].rs.crtInstance == g.nodes[s].rs.crtInstance[s := g.nodes[s].rs.crtInstance[s] + 1]
    ensures NextId(g.nodes[s].rs).instance <= CrtInstance(g', s)
  {
  }

  /** The new entry and the messages about it. */
  lemma ProposedEntry(g: Global, g': Global, s: nat, id: Id, c: Command, targets: seq<nat>, m: Msg)
    requires s < |g.nodes| == |g'.nodes| == g'.n == g.n && id.replica == s && id in Sp(g', s)
    requires LeaderOk(g.n, id, Sp(g', s)[id]) && Sp(g', s)[id].lb.value.cmds == [c] && Open(Sp(g', s)[id].lb.value)
    requires Indexed(g'.nodes[s].rs, id, c)
    requires TargetsOk(g.nodes[s].rs, FastQuorumSize(g.f) - 1, targets) && g.nodes[s].rs.n == g.n && g.nodes[s].rs.id == s
    requires m == PreAccept(id, s, s, [c], -1, Sp(g', s)[id].lb.value.originalDeps)
    ensures EntryOk(g', s, id)
    ensures forall p :: p in SetOf(Broadcast(s, targets, m)) ==> PacketOk(g', p)
  {
    forall p | p in SetOf(Broadcast(s, targets, m)) ensures PacketOk(g', p) {
      var i :| 0 <= i < |targets| && p == Packet(s, targets[i], m);
      assert targets[i] < g.n && targets[i] != s;
    }
  }

  // ---------------------------------------------------------------- delivering a message

  /** Delivering p: only the receiver changes, and p leaves the network. */
  ghost predicate Delivery(g: Global, g': Global, p: Packet, o: Outcome) {
    && p in g.net && p.dst < |g.nodes|
    && g' == g.(nodes := g.nodes[p.dst := g.nodes[p.dst].(rs := o.st)],
                net := g.net - {p} + SetOf(o.out), sent := g.sent + SetOf(o.out))
  }

  lemma DeliveryTouch(g: Global, g': Global, p: Packet, o: Outcome)
    requires Basic(g) && Delivery(g, g', p, o) && (forall q :: q in o.out ==> q !in g.sent)
    requires LocalStep(g.nodes[p.dst].rs, o.st, p.msg.id)
    ensures Touch(g, g', p.dst, p.msg.id) && g'.net <= g'.sent
    ensures LeaderForward(g, g', p.dst, p.msg.id) ==> Evolves(g, g')
  {
    hide LocalStep, LeaderOk, EntryOk, PacketOk, Local, LeaderForward, Touch;
    assert forall q :: Delivered(g, q) ==> Delivered(g', q);
    StepTouch(g, g', p.dst, p.msg.id);
  }

  /** At a peer of the leader of the message's instance. */
  lemma BasicAtPeer(g: Global, g': Global, p: Packet, o: Outcome)
    requires Basic(g) && Delivery(g, g', p, o) && p.msg.id.replica != p.dst && Started(g, p.msg.id)
    requires forall q :: q in o.out ==> q !in g.sent
    requires LocalStep(g.nodes[p.dst].rs, o.st, p.msg.id)
    requires PeerEntryOk(g, o.st, p.msg.id)
    requires forall q :: q in o.out ==> PacketOk(g, q)
    ensures Basic(g') && Evolves(g, g') && Touch(g, g', p.dst, p.msg.id)
  {
    hide LocalStep, LeaderOk, PacketOk, Local, Indexed, Touch, IndexGrows;
    DeliveryTouch(g, g', p, o);
    PeerEntry(g, g', p.dst, p.msg.id);
    forall q | q in o.out ensures PacketOk(g', q) {
      PacketEvolves(g, g', q);
    }
    TouchBasic(g, g', p.dst, p.msg.id);
  }

  /** EntryOk at a replica in state st, with the leader's view of g. */
  ghost predicate PeerEntryOk(g: Global, st: RState, id: Id)
    requires Started(g, id)
  {
    id in st.space
    && var inst := st.space[id];
       && (inst.bal == -1 || inst.bal == id.replica) && inst.lb.None?
       && (inst.cmds.Some? ==> inst.cmds.value == Lb(g, id).cmds && |Lb(g, id).cmds| == 1
                               && Indexed(st, id, Lb(g, id).cmds[0]))
       && (Decided(inst) ==> inst.cmds.Some? && inst.bal == id.replica && Lb(g, id).status == COMMITTED
                             && inst.seqno == Lb(g, id).seqno && inst.deps == Lb(g, id).deps)
  }

  lemma PeerEntry(g: Global, g': Global, s: nat, id: Id)
    requires s < |g.nodes| == |g'.nodes| && id.replica != s && Started(g, id)
    requires id.replica < |g.nodes| ==> g'.nodes[id.replica] == g.nodes[id.replica]
    requires PeerEntryOk(g, g'.nodes[s].rs, id)
    ensures EntryOk(g', s, id)
  {
  }

  /** What the invariant says about a message and the leader of its instance. */
  lemma LeaderAt(g: Global, p: Packet)
    requires Basic(g) && (p in g.net || p in g.sent)
    ensures PacketOk(g, p) && LeaderOk(g.n, p.msg.id, Sp(g, p.msg.id.replica)[p.msg.id])
    ensures Local(g.nodes[p.dst].rs) && g.nodes[p.dst].rs.id == p.dst && g.nodes[p.dst].rs.n == g.n
    ensures g.nodes[p.dst].rs.f == g.f && |g.nodes| == g.n
    ensures p.msg.id in Sp(g, p.dst) ==> EntryOk(g, p.dst, p.msg.id)
  {
    hide LeaderOk, EntryOk, Local, Indexed;
    assert PacketOk(g, p);
  }

  // ---------------------------------------------------------------- PreAccept at a peer

  /** The state in which handlePreAccept computes the attributes. */
  function PreAcceptState(st: RState, m: Msg, now: int): RState
    requires m.PreAccept? && m.id.replica < |st.crtInstance|
  {
    var st1 := Notice(st.(maxSeq := if m.seqno >= st.maxSeq then m.seqno + 1 else st.maxSeq), m.id, m.ballot);
    st1.(space := st1.space[m.id := Lookup(st1, m.id, now)])
  }

  lemma PreAcceptLocal(st: RState, m: Msg, now: int)
    requires CanHandle(st, m) && m.PreAccept? && m.id !in st.space && m.id.replica != st.id
    requires |m.command| == 1 && m.ballot >= 0
    ensures var o := HandlePreAccept(st, m, now);
      LocalStep(st, o.st, m.id) && Indexed(o.st, m.id, m.command[0]) && PreAcceptResult(st, m, now, o)
  {
    var st2 := PreAcceptState(st, m, now);
    LargerSpaceLocal(st, st2);
    hide *;
    PreAcceptUnfolds(st, m, now);
    PreAcceptSteps(st, st2, m, PreAcceptedInstance(st2, m));
    PreAcceptShows(st, m, now);
  }

  lemma PreAcceptSteps(st: RState, st2: RState, m: Msg, inst: Instance)
    requires Local(st2) && IndexGrows(st, st2) && m.PreAccept? && |m.command| == 1 && m.id.replica < st.n
    requires st2 == st.(maxSeq := st2.maxSeq, maxRecvBallot := st2.maxRecvBallot, crtInstance := st2.crtInstance, space := st2.space)
    requires m.id in st2.space && st2.space == st.space[m.id := st2.space[m.id]] && CrtAt(st) <= CrtAt(st2)
    ensures var st' := UpdateConflicts(st2.(space := st2.space[m.id := inst]), m.command, m.id, m.seqno);
      LocalStep(st, st', m.id) && Indexed(st', m.id, m.command[0])
  {
    var st3 := st2.(space := st2.space[m.id := inst]);
    LargerSpaceLocal(st2, st3);
    assert m.command == [m.command[0]];
    RecordKeepsLocal(st3, m.command[0], m.id, m.seqno);
    IndexGrowsTrans(st, st2, st3);
    IndexGrowsTrans(st, st3, UpdateConflicts(st3, m.command, m.id, m.seqno));
    hide IndexGrows, Indexed, ConflictsKnown, RecordCommands, RecordSeqs;
    assert st2.space[m.id := inst] == st.space[m.id := inst];
  }

  lemma PreAcceptShows(st: RState, m: Msg, now: int)
    requires CanHandle(st, m) && m.PreAccept? && m.id !in st.space && m.id.replica != st.id
    requires ConflictsKnown(PreAcceptState(st, m, now)) && m.ballot >= 0
    ensures PreAcceptResult(st, m, now, HandlePreAccept(st, m, now))
  {
    var st2 := PreAcceptState(st, m, now);
    PreAcceptUnfolds(st, m, now);
    AttributesGrow(st2, m.command, m.seqno, m.deps, m.id.replica);
    hide HandlePreAccept, ConflictsKnown, UpdateAttributes, RecordCommands, RecordSeqs, PreAcceptState;
  }

  /** The entry of an instance that handlePreAccept did not know. */
  ghost function PreAcceptedInstance(st2: RState, m: Msg): Instance
    requires ConflictsKnown(st2) && m.PreAccept? && m.id.replica < st2.n && |m.deps| == st2.n && m.id in st2.space
    requires forall i :: 0 <= i < |m.deps| ==> -1 <= m.deps[i]
  {
    var a := UpdateAttributes(st2, m.command, m.seqno, m.deps, m.id.replica);
    st2.space[m.id].(cmds := Some(m.command), seqno := a.seqno, deps := a.deps, bal := m.ballot,
                     vbal := m.ballot, status := if a.changed then PREACCEPTED else PREACCEPTED_EQ)
  }

  lemma PreAcceptUnfolds(st: RState, m: Msg, now: int)
    requires CanHandle(st, m) && m.PreAccept? && m.id !in st.space && m.ballot >= 0
    requires ConflictsKnown(PreAcceptState(st, m, now))
    ensures var st2 := PreAcceptState(st, m, now);
      var inst := PreAcceptedInstance(st2, m);
      && st2 == st.(maxSeq := st2.maxSeq, maxRecvBallot := st2.maxRecvBallot, crtInstance := st2.crtInstance,
                    space := st.space[m.id := DefaultInstance(now)])
      && HandlePreAccept(st, m, now)
         == Outcome(UpdateConflicts(st2.(space := st2.space[m.id := inst]), m.command, m.id, m.seqno),
                    [Packet(st.id, m.leaderId, PreAcceptReply(m.id, m.ballot, m.ballot, inst.seqno, inst.deps, st.committedUpTo, inst.status))])
  {
    hide ConflictsKnown, UpdateAttributes, RecordCommands, RecordSeqs;
  }

  ghost predicate PreAcceptResult(st: RState, m: Msg, now: int, o: Outcome)
    requires CanHandle(st, m) && m.PreAccept?
  {
    m.id in o.st.space && ConflictsKnown(PreAcceptState(st, m, now)) && |o.st.committedUpTo| == st.n
    && var i := o.st.space[m.id];
       && i.cmds == Some(m.command) && i.bal == m.ballot && !Decided(i) && i.index == 0 && i.lb.None?
       && (i.status == PREACCEPTED || i.status == PREACCEPTED_EQ)
       && i.deps == UpdateAttributes(PreAcceptState(st, m, now), m.command, m.seqno, m.deps, m.id.replica).deps
       && Grown(m.id.replica, i.deps, m.deps)
       && o.out == [Packet(st.id, m.leaderId,
            PreAcceptReply(m.id, m.ballot, m.ballot, i.seqno, i.deps, o.st.committedUpTo, i.status))]
  }

  lemma BasicPreAccept(g: Global, g': Global, p: Packet, now: int, targets: seq<nat>)
    requires Basic(g) && DeliverStep(g, g', p, now, targets) && p.msg.PreAccept?
    requires p.msg.id !in Sp(g, p.dst)
    requires forall q :: q in g.sent && q.msg.PreAcceptReply? && q.msg.id == p.msg.id ==> q.src != p.dst
    ensures Basic(g') && Evolves(g, g') && Touch(g, g', p.dst, p.msg.id)
    ensures PreAcceptResult(g.nodes[p.dst].rs, p.msg, now, HandlePreAccept(g.nodes[p.dst].rs, p.msg, now))
  {
    hide Indexed, UpdateAttributes, HandlePreAccept, LocalStep, Evolves, Touch, Basic, Local, ConflictsKnown;
    LeaderAt(g, p);
    PreAcceptLocal(g.nodes[p.dst].rs, p.msg, now);
    BasicAtPeer(g, g', p, HandlePreAccept(g.nodes[p.dst].rs, p.msg, now));
  }

  // ---------------------------------------------------------------- Accept and Commit at a peer

  lemma AcceptLocal(st: RState, m: Msg, now: int)
    requires CanHandle(st, m) && m.Accept?
    ensures LocalStep(st, HandleAccept(st, m, now).st, m.id)
  {
    LargerSpaceLocal(st, HandleAccept(st, m, now).st);
  }

  lemma BasicAccept(g: Global, g': Global, p: Packet, now: int, targets: seq<nat>)
    requires Basic(g) && DeliverStep(g, g', p, now, targets) && p.msg.Accept?
    requires forall q :: q in g.sent && q.msg.AcceptReply? && q.msg.id == p.msg.id ==> q.src != p.dst
    ensures Basic(g') && Evolves(g, g') && Touch(g, g', p.dst, p.msg.id)
  {
    hide Indexed, LocalStep, Evolves, Touch, Basic, Local, IndexGrows;
    LeaderAt(g, p);
    AcceptLocal(g.nodes[p.dst].rs, p.msg, now);
    IndexedStill(g.nodes[p.dst].rs, HandleAccept(g.nodes[p.dst].rs, p.msg, now).st, p.msg.id);
    BasicAtPeer(g, g', p, HandleAccept(g.nodes[p.dst].rs, p.msg, now));
  }

  lemma IndexedStill(a: RState, b: RState, id: Id)
    requires LocalStep(a, b, id)
    ensures forall c :: Indexed(a, id, c) ==> Indexed(b, id, c)
  {
  }

  ghost predicate CommitIgnored(st: RState, m: Msg) {
    m.id in st.space && Decided(st.space[m.id])
  }

  lemma CommitIgnoredLocal(st: RState, m: Msg, now: int)
    requires CanHandle(st, m) && m.Commit? && CommitIgnored(st, m)
    ensures LocalStep(st, HandleCommit(st, m, now).st, m.id)
    ensures HandleCommit(st, m, now).st.space == st.space && HandleCommit(st, m, now).out == []
  {
    LargerSpaceLocal(st, HandleCommit(st, m, now).st);
  }

  lemma CommitLocal(st: RState, m: Msg, now: int)
    requires CanHandle(st, m) && m.Commit? && |m.command| == 1 && !CommitIgnored(st, m)
    requires if m.id in st.space then st.space[m.id].bal <= m.ballot else m.ballot >= 0
    ensures var o := HandleCommit(st, m, now);
      && LocalStep(st, o.st, m.id) && o.out == [] && m.id in o.st.space && Indexed(o.st, m.id, m.command[0])
      && var i := o.st.space[m.id];
         i.cmds == Some(m.command) && i.seqno == m.seqno && i.deps == m.deps && i.bal == m.ballot
         && i.status == COMMITTED && i.lb == Lookup(st, m.id, now).lb
  {
    hide Indexed, IndexGrows;
    var inst := Lookup(st, m.id, now);
    var inst1 := inst.(bal := m.ballot, vbal := m.ballot, cmds := Some(m.command), seqno := m.seqno,
                       deps := m.deps, status := COMMITTED);
    var st3 := Notice(st, m.id, m.ballot).(space := st.space[m.id := inst1]);
    LargerSpaceLocal(st, st3);
    assert m.command == [m.command[0]];
    RecordKeepsLocal(st3, m.command[0], m.id, m.seqno);
    CommitOutcome(st, m, now);
    CommittedLocal(UpdateConflicts(st3, m.command, m.id, m.seqno), m.id.replica);
    IndexGrowsTrans(st, st3, UpdateConflicts(st3, m.command, m.id, m.seqno));
  }

  lemma CommitOutcome(st: RState, m: Msg, now: int)
    requires CanHandle(st, m) && m.Commit? && !CommitIgnored(st, m)
    requires if m.id in st.space then st.space[m.id].bal <= m.ballot else m.ballot >= 0
    ensures var inst1 := Lookup(st, m.id, now).(bal := m.ballot, vbal := m.ballot, cmds := Some(m.command),
                           seqno := m.seqno, deps := m.deps, status := COMMITTED);
            var st3 := Notice(st, m.id, m.ballot).(space := st.space[m.id := inst1]);
            HandleCommit(st, m, now) == Outcome(UpdateCommitted(UpdateConflicts(st3, m.command, m.id, m.seqno), m.id.replica), [])
  {
    hide UpdateConflicts, UpdateCommitted;
    var st1 := Notice(st, m.id, m.ballot);
    var inst := Lookup(st1, m.id, now);
    var inst1 := inst.(bal := m.ballot, vbal := m.ballot, cmds := Some(m.command), seqno := m.seqno,
                       deps := m.deps, status := COMMITTED);
    assert st1.space[m.id := inst][m.id := inst1] == st.space[m.id := inst1];
  }

  /** updateCommitted touches nothing else. */
  lemma CommittedLocal(st: RState, q: nat)
    requires Local(st) && q < st.n
    ensures Local(UpdateCommitted(st, q)) && UpdateCommitted(st, q).space == st.space
    ensures forall x, c :: Indexed(UpdateCommitted(st, q), x, c) <==> Indexed(st, x, c)
    ensures forall r :: IndexGrows(r, st) ==> IndexGrows(r, UpdateCommitted(st, q))
  {
  }

  lemma IndexGrowsTrans(a: RState, b: RState, c: RState)
    requires IndexGrows(a, b) && IndexGrows(b, c)
    ensures IndexGrows(a, c)
  {
    forall x, d | Indexed(a, x, d) ensures Indexed(c, x, d) {
      assert Indexed(b, x, d);
    }
  }

  lemma SameEntry(g: Global, s: nat, st: RState, id: Id)
    requires s < |g.nodes| && id in Sp(g, s) && EntryOk(g, s, id) && id.replica != s
    requires LocalStep(g.nodes[s].rs, st, id) && st.space == Sp(g, s)
    ensures PeerEntryOk(g, st, id)
  {
    IndexedStill(g.nodes[s].rs, st, id);
  }

  lemma BasicCommit(g: Global, g': Global, p: Packet, now: int, targets: seq<nat>)
    requires Basic(g) && DeliverStep(g, g', p, now, targets) && p.msg.Commit?
    ensures Basic(g') && Evolves(g, g') && Touch(g, g', p.dst, p.msg.id)
  {
    hide LocalStep, Evolves, Touch, Basic, Local, IndexGrows, HandleCommit;
    var rs := g.nodes[p.dst].rs;
    LeaderAt(g, p);
    if CommitIgnored(rs, p.msg) {
      CommitIgnoredLocal(rs, p.msg, now);
      SameEntry(g, p.dst, HandleCommit(rs, p.msg, now).st, p.msg.id);
    } else {
      CommitLocal(rs, p.msg, now);
      assert PeerEntryOk(g, HandleCommit(rs, p.msg, now).st, p.msg.id);
    }
    BasicAtPeer(g, g', p, HandleCommit(rs, p.msg, now));
  }

  // ---------------------------------------------------------------- replies at the leader

  lemma TallyOk(st: RState, id: Id, inst: Instance, m: Msg)
    requires LeaderOk(st.n, id, inst) && Open(inst.lb.value) && id.replica == st.id && |st.committedUpTo| == st.n
    requires m.PreAcceptReply? && m.vballot == id.replica && |m.committedDeps| == st.n
    requires Grown(id.replica, m.deps, inst.lb.value.originalDeps)
    requires m.status == PREACCEPTED || m.status == PREACCEPTED_EQ
    ensures var lb, lb1 := inst.lb.value, Tally(st, inst, inst.lb.value, m).0;
      && lb1.cmds == lb.cmds && lb1.originalDeps == lb.originalDeps && lb1.lastTriedBallot == lb.lastTriedBallot
      && lb1.ballot == id.replica && lb1.preAcceptOKs == lb.preAcceptOKs + 1 && Open(lb1)
      && |lb1.committedDeps| == st.n
      && Grown(id.replica, lb1.deps, lb.originalDeps) && GeDeps(lb1.deps, m.deps)
      && (lb.preAcceptOKs > 0 ==> GeDeps(lb1.deps, lb.deps))
  {
    var lb := inst.lb.value;
    var base := if m.vballot > lb.ballot then m.deps else lb.deps;
    TallyDeps(st, inst, lb, m);
    MergedGrown(id.replica, base, m.deps, lb.originalDeps);
    hide Tally, MergeDeps, AtLeastNil;
  }

  lemma TallyDeps(st: RState, inst: Instance, lb: LeaderBookkeeping, m: Msg)
    requires m.PreAcceptReply? && |lb.deps| == |m.deps| == st.n == |st.committedUpTo|
    requires |lb.committedDeps| == |m.committedDeps| == |inst.deps| == st.n
    requires Open(lb) && (m.status == PREACCEPTED || m.status == PREACCEPTED_EQ)
    ensures var lb1 := Tally(st, inst, lb, m).0;
      && lb1.cmds == lb.cmds && lb1.originalDeps == lb.originalDeps && lb1.lastTriedBallot == lb.lastTriedBallot
      && lb1.ballot == Max(lb.ballot, m.vballot) && lb1.preAcceptOKs == lb.preAcceptOKs + 1 && Open(lb1)
      && |lb1.committedDeps| == st.n
      && lb1.deps == MergeDeps(st.id, if m.vballot > lb.ballot then m.deps else lb.deps, m.deps)
  {
    hide MergeDeps, SameExcept;
  }

  lemma MergedGrown(own: nat, base: seq<int>, deps: seq<int>, original: seq<int>)
    requires Grown(own, base, original) && Grown(own, deps, original)
    ensures var merged := MergeDeps(own, base, deps);
      Grown(own, merged, original) && GeDeps(merged, deps) && GeDeps(merged, base)
  {
  }

  /** The three ways a PreAcceptReply can end at its leader: counted, slow path, fast path. */
  lemma ReplyLocal(st: RState, m: Msg, targets: seq<nat>)
    requires CanHandle(st, m) && m.PreAcceptReply? && m.id.replica == st.id
    requires LeaderOk(st.n, m.id, st.space[m.id]) && m.ballot == m.vballot == m.id.replica
    requires Grown(m.id.replica, m.deps, st.space[m.id].lb.value.originalDeps)
    requires m.status == PREACCEPTED || m.status == PREACCEPTED_EQ
    ensures var o := HandlePreAcceptReply(st, m, targets);
      && LocalStep(st, o.st, m.id) && m.id in o.st.space
      && LeaderOk(st.n, m.id, o.st.space[m.id])
      && LbLe(st.space[m.id].lb.value, o.st.space[m.id].lb.value)
      && ReplyOutcome(st, m, targets, o)
  {
    hide LocalStep, ReplyOutcome, LbLe, HandlePreAcceptReply, Local, Grown;
    OpenEntry(st.n, m.id, st.space[m.id]);
    if Open(st.space[m.id].lb.value) {
      ReplyWhenOpen(st, m, targets);
    } else {
      ReplyWhenFixed(st, m, targets);
    }
  }

  lemma OpenEntry(n: nat, id: Id, inst: Instance)
    requires LeaderOk(n, id, inst)
    ensures Open(inst.lb.value) || Fixed(inst.lb.value)
  {
  }

  lemma ReplyWhenFixed(st: RState, m: Msg, targets: seq<nat>)
    requires CanHandle(st, m) && m.PreAcceptReply? && m.id.replica == st.id && Fixed(st.space[m.id].lb.value)
    requires LeaderOk(st.n, m.id, st.space[m.id]) && m.ballot == m.vballot == m.id.replica
    ensures var o := HandlePreAcceptReply(st, m, targets);
      && LocalStep(st, o.st, m.id) && o.st.space == st.space && o.out == []
      && LbLe(st.space[m.id].lb.value, o.st.space[m.id].lb.value) && ReplyOutcome(st, m, targets, o)
  {
    LargerSpaceLocal(st, st.(maxRecvBallot := Max(st.maxRecvBallot, m.ballot)));
    hide IndexGrows, ConflictsKnown, Tally, Decide;
  }

  lemma ReplyWhenOpen(st: RState, m: Msg, targets: seq<nat>)
    requires CanHandle(st, m) && m.PreAcceptReply? && m.id.replica == st.id && Open(st.space[m.id].lb.value)
    requires LeaderOk(st.n, m.id, st.space[m.id]) && m.ballot == m.vballot == m.id.replica
    requires Grown(m.id.replica, m.deps, st.space[m.id].lb.value.originalDeps)
    requires m.status == PREACCEPTED || m.status == PREACCEPTED_EQ
    ensures var o := HandlePreAcceptReply(st, m, targets);
      && LocalStep(st, o.st, m.id) && m.id in o.st.space
      && LeaderOk(st.n, m.id, o.st.space[m.id])
      && LbLe(st.space[m.id].lb.value, o.st.space[m.id].lb.value)
      && ReplyOutcome(st, m, targets, o)
  {
    var lb, st1 := st.space[m.id].lb.value, st.(maxRecvBallot := Max(st.maxRecvBallot, m.ballot));
    LargerSpaceLocal(st, st1);
    TallyOk(st1, m.id, st.space[m.id], m);
    hide IndexGrows, ConflictsKnown, Tally, Decide, Grown, GeDeps, AtLeastNil;
    var (lb1, allCommitted) := Tally(st1, st1.space[m.id], lb, m);
    SameProposals(st1, st1.space[m.id], lb, m);
    DecideLocal(st1, m.id, lb1, allCommitted, targets);
    IndexGrowsTrans(st, st1, Decide(st1, m.id, lb1, allCommitted, targets).st);
  }

  lemma SameProposals(st: RState, inst: Instance, lb: LeaderBookkeeping, m: Msg)
    requires m.PreAcceptReply? && |lb.deps| == |m.deps| == st.n == |st.committedUpTo|
    requires |lb.committedDeps| == |m.committedDeps| == |inst.deps| == st.n
    ensures Tally(st, inst, lb, m).0.clientProposals == lb.clientProposals
  {
    hide MergeDeps, SameExcept, MergeCommitted;
  }

  lemma DecideLocal(st: RState, id: Id, lb: LeaderBookkeeping, allCommitted: bool, targets: seq<nat>)
    requires Local(st) && id in st.space && id.replica == st.id
    requires LeaderOk(st.n, id, st.space[id]) && Open(st.space[id].lb.value)
    requires Open(lb) && lb.ballot == lb.lastTriedBallot == id.replica && |lb.committedDeps| == st.n
    requires lb.cmds == st.space[id].lb.value.cmds && lb.originalDeps == st.space[id].lb.value.originalDeps
    requires Grown(id.replica, lb.deps, lb.originalDeps)
    ensures var o := Decide(st, id, lb, allCommitted, targets);
      && LocalStep(st, o.st, id) && LeaderOk(st.n, id, o.st.space[id])
      && var lb' := o.st.space[id].lb.value;
         && lb' == lb.(status := lb'.status)
         && (Fixed(lb') <==> lb'.preAcceptOKs >= FastQuorumSize(st.f) - 1)
         && (Open(lb') ==> o.out == [])
         && (lb'.status == ACCEPTED ==>
               o.out == Broadcast(st.id, targets, Accept(id, st.id, id.replica, lb'.seqno, lb'.deps)))
         && (lb'.status == COMMITTED ==>
               o.out == Broadcast(st.id, targets, Commit(id, st.id, id.replica, lb'.cmds, lb'.seqno, lb'.deps)))
  {
    LargerSpaceLocal(st, Decide(st, id, lb, allCommitted, targets).st);
  }

  ghost predicate ReplyOutcome(st: RState, m: Msg, targets: seq<nat>, o: Outcome)
    requires m.PreAcceptReply? && m.id in st.space && m.id in o.st.space
    requires st.space[m.id].lb.Some? && o.st.space[m.id].lb.Some?
  {
    var lb, lb' := st.space[m.id].lb.value, o.st.space[m.id].lb.value;
    && (Fixed(lb) ==> o.st.space == st.space && o.out == [])
    && (Open(lb) ==>
          && lb'.preAcceptOKs == lb.preAcceptOKs + 1
          && GeDeps(lb'.deps, m.deps) && (lb.preAcceptOKs > 0 ==> GeDeps(lb'.deps, lb.deps))
          && (Fixed(lb') <==> lb'.preAcceptOKs >= FastQuorumSize(st.f) - 1)
          && (Open(lb') ==> o.out == [])
          && (lb'.status == ACCEPTED ==>
                o.out == Broadcast(st.id, targets, Accept(m.id, st.id, m.id.replica, lb'.seqno, lb'.deps)))
          && (lb'.status == COMMITTED ==>
                o.out == Broadcast(st.id, targets, Commit(m.id, st.id, m.id.replica, lb'.cmds, lb'.seqno, lb'.deps))))
  }

  /** At the leader of the message's instance. */
  lemma BasicAtLeader(g: Global, g': Global, p: Packet, o: Outcome)
    requires Basic(g) && Delivery(g, g', p, o) && p.msg.id.replica == p.dst && Started(g, p.msg.id)
    requires LocalStep(g.nodes[p.dst].rs, o.st, p.msg.id)
    requires LeaderOk(g.n, p.msg.id, o.st.space[p.msg.id])
    requires LbLe(Lb(g, p.msg.id), o.st.space[p.msg.id].lb.value)
    requires forall q :: q in o.out ==> q !in g.sent
    requires forall q :: q in o.out ==> PacketOk(g', q)
    ensures Basic(g') && Evolves(g, g') && Touch(g, g', p.dst, p.msg.id)
    ensures Lb(g', p.msg.id) == o.st.space[p.msg.id].lb.value
  {
    hide LocalStep, LeaderOk, PacketOk, Local, Indexed, Touch, IndexGrows, EntryOk, LeaderForward;
    LeaderAfter(g, g', p, o);
    DeliveryTouch(g, g', p, o);
    TouchBasic(g, g', p.dst, p.msg.id);
  }

  lemma LeaderAfter(g: Global, g': Global, p: Packet, o: Outcome)
    requires Basic(g) && Delivery(g, g', p, o) && p.msg.id.replica == p.dst && Started(g, p.msg.id)
    requires LocalStep(g.nodes[p.dst].rs, o.st, p.msg.id)
    requires LeaderOk(g.n, p.msg.id, o.st.space[p.msg.id])
    requires LbLe(Lb(g, p.msg.id), o.st.space[p.msg.id].lb.value)
    ensures EntryOk(g', p.dst, p.msg.id) && p.msg.id.instance <= CrtInstance(g', p.dst)
    ensures Touch(g, g', p.dst, p.msg.id) ==> LeaderForward(g, g', p.dst, p.msg.id)
    ensures p.msg.id in Sp(g', p.dst) && Lb(g', p.msg.id) == o.st.space[p.msg.id].lb.value
  {
    hide Local, PacketOk, Indexed, LbLe, EntryOk, IndexGrows;
    IndexedStill(g.nodes[p.dst].rs, o.st, p.msg.id);
    LeaderEntry(g, g', p.dst, p.msg.id);
  }

  /** A leader's own entry follows its bookkeeping. */
  lemma LeaderEntry(g: Global, g': Global, s: nat, id: Id)
    requires s < |g.nodes| == |g'.nodes| && id.replica == s && id in Sp(g, s) && EntryOk(g, s, id)
    requires id in Sp(g', s) && LeaderOk(g.n, id, Sp(g', s)[id]) && LbLe(Lb(g, id), Sp(g', s)[id].lb.value)
    requires LeaderOk(g.n, id, Sp(g, s)[id])
    requires forall c :: Indexed(g.nodes[s].rs, id, c) ==> Indexed(g'.nodes[s].rs, id, c)
    ensures EntryOk(g', s, id)
  {
  }

  lemma BroadcastNew(src: nat, targets: seq<nat>, msg: Msg, sent: set<Packet>)
    requires forall q :: q in sent ==> q.msg != msg
    ensures forall q :: q in Broadcast(src, targets, msg) ==> q !in sent
  {
  }

  lemma BasicReply(g: Global, g': Global, p: Packet, now: int, targets: seq<nat>)
    requires Basic(g) && DeliverStep(g, g', p, now, targets) && p.msg.PreAcceptReply?
    ensures Basic(g') && Evolves(g, g') && Touch(g, g', p.dst, p.msg.id)
    ensures ReplyOutcome(g.nodes[p.dst].rs, p.msg, targets, HandlePreAcceptReply(g.nodes[p.dst].rs, p.msg, targets))
    ensures forall q :: q in HandlePreAcceptReply(g.nodes[p.dst].rs, p.msg, targets).out ==> q !in g.sent
  {
    hide LocalStep, Evolves, Touch, Basic, Local, IndexGrows, HandlePreAcceptReply, Indexed;
    LeaderAt(g, p);
    var rs, id := g.nodes[p.dst].rs, p.msg.id;
    ReplyLocal(rs, p.msg, targets);
    var o := HandlePreAcceptReply(rs, p.msg, targets);
    NotYetDecided(g, id);
    if Open(Lb(g, id)) && o.out != [] {
      BroadcastNew(p.dst, targets, o.out[0].msg, g.sent);
    }
    LeaderSends(g, g', p, o, targets);
    BasicAtLeader(g, g', p, o);
  }

  /** As long as the leader is undecided, no Accept and no Commit has been sent. */
  lemma NotYetDecided(g: Global, id: Id)
    requires Basic(g) && Started(g, id)
    ensures Open(Lb(g, id)) ==> forall q :: q in g.sent && q.msg.id == id ==> !q.msg.Accept? && !q.msg.Commit?
    ensures Lb(g, id).status != COMMITTED ==> forall q :: q in g.sent && q.msg.id == id ==> !q.msg.Commit?
  {
    hide LeaderOk, EntryOk, Local;
    forall q | q in g.sent && q.msg.id == id
      ensures Open(Lb(g, id)) ==> !q.msg.Accept? && !q.msg.Commit?
      ensures Lb(g, id).status != COMMITTED ==> !q.msg.Commit?
    {
      assert PacketOk(g, q);
    }
  }

  /** An Accept or a Commit with the leader's new bookkeeping. */
  lemma LeaderSends(g: Global, g': Global, p: Packet, o: Outcome, targets: seq<nat>)
    requires Delivery(g, g', p, o) && p.msg.id.replica == p.dst < g.n == |g.nodes|
    requires TargetsOk(g.nodes[p.dst].rs, g.n, targets) && g.nodes[p.dst].rs.id == p.dst && g.nodes[p.dst].rs.n == g.n
    requires p.msg.id in o.st.space && o.st.space[p.msg.id].lb.Some?
    requires var id, lb' := p.msg.id, o.st.space[p.msg.id].lb.value;
      || o.out == []
      || (Fixed(lb') && o.out == Broadcast(p.dst, targets, Accept(id, p.dst, id.replica, lb'.seqno, lb'.deps)))
      || (lb'.status == COMMITTED
          && o.out == Broadcast(p.dst, targets, Commit(id, p.dst, id.replica, lb'.cmds, lb'.seqno, lb'.deps)))
    ensures forall q :: q in o.out ==> PacketOk(g', q)
  {
    forall q | q in o.out ensures PacketOk(g', q) {
      var i :| 0 <= i < |o.out| && o.out[i] == q;
      assert q.dst == targets[i];
    }
  }

  lemma AcceptReplyLocal(st: RState, m: Msg, targets: seq<nat>)
    requires CanHandle(st, m) && m.AcceptReply? && m.id.replica == st.id
    requires LeaderOk(st.n, m.id, st.space[m.id])
    ensures var o := HandleAcceptReply(st, m, targets);
      && LocalStep(st, o.st, m.id) && m.id in o.st.space && LeaderOk(st.n, m.id, o.st.space[m.id])
      && var lb, lb' := st.space[m.id].lb.value, o.st.space[m.id].lb.value;
         && LbLe(lb, lb') && (Open(lb) <==> Open(lb')) && lb'.preAcceptOKs == lb.preAcceptOKs && lb'.deps == lb.deps
         && (o.out == []
             || (lb.status == ACCEPTED && lb'.status == COMMITTED
                 && o.out == Broadcast(st.id, targets, Commit(m.id, st.id, m.id.replica, lb'.cmds, lb'.seqno, lb'.deps))))
  {
    hide IndexGrows;
    LargerSpaceLocal(st, HandleAcceptReply(st, m, targets).st);
  }

  lemma BasicAcceptReply(g: Global, g': Global, p: Packet, now: int, targets: seq<nat>)
    requires Basic(g) && DeliverStep(g, g', p, now, targets) && p.msg.AcceptReply?
    ensures Basic(g') && Evolves(g, g') && Touch(g, g', p.dst, p.msg.id)
    ensures Open(Lb(g, p.msg.id)) <==> Open(Lb(g', p.msg.id))
    ensures Lb(g', p.msg.id).preAcceptOKs == Lb(g, p.msg.id).preAcceptOKs
    ensures Lb(g', p.msg.id).deps == Lb(g, p.msg.id).deps
    ensures forall q :: q in HandleAcceptReply(g.nodes[p.dst].rs, p.msg, targets).out ==> q.msg.Commit? && q !in g.sent
  {
    hide LocalStep, Evolves, Touch, Basic, Local, IndexGrows, HandleAcceptReply, Indexed;
    LeaderAt(g, p);
    var rs, id := g.nodes[p.dst].rs, p.msg.id;
    AcceptReplyLocal(rs, p.msg, targets);
    var o := HandleAcceptReply(rs, p.msg, targets);
    NotYetDecided(g, id);
    if o.out != [] {
      BroadcastNew(p.dst, targets, o.out[0].msg, g.sent);
    }
    LeaderSends(g, g', p, o, targets);
    BasicAtLeader(g, g', p, o);
  }

  // ---------------------------------------------------------------- execution

  /** The executor changes no bookkeeping and no attributes. */
  lemma ExecuteKeeps(g: Global, g': Global, s: nat, space: Space, ex: Execution)
    requires Basic(g) && ExecuteStep(g, g', s, space, ex)
    ensures Evolves(g, g') && |g'.nodes| == g.n && g'.n == g.n
    ensures forall id :: Started(g, id) <==> Started(g', id)
    ensures forall id :: Started(g, id) ==> Lb(g', id) == Lb(g, id)
    ensures forall r, id :: 0 <= r < g.n ==> (id in Sp(g', r) <==> id in Sp(g, r))
    ensures forall r, id :: 0 <= r < g.n && id in Sp(g, r) ==> SameInstance(Sp(g, r)[id], Sp(g', r)[id])
    ensures forall r :: 0 <= r < g.n ==> g'.nodes[r].rs == g.nodes[r].rs.(space := Sp(g', r))
  {
    hide Local, PacketOk, EntryOk, LeaderOk, ExecutionOk;
    assert forall id :: id in space ==> SameInstance(Sp(g, s)[id], space[id]);
  }

  lemma ExecuteEntry(g: Global, g': Global, r: nat, id: Id)
    requires |g.nodes| == g.n == g'.n == |g'.nodes| && r < g.n && id in Sp(g, r) && id in Sp(g', r)
    requires Started(g, id) && Started(g', id) && Lb(g', id) == Lb(g, id)
    requires SameInstance(Sp(g, r)[id], Sp(g', r)[id])
    requires g'.nodes[r].rs == g.nodes[r].rs.(space := Sp(g', r))
    ensures EntryOk(g, r, id) ==> EntryOk(g', r, id)
    ensures LeaderOk(g.n, id, Sp(g, r)[id]) ==> LeaderOk(g.n, id, Sp(g', r)[id])
  {
  }

  lemma BasicExecute(g: Global, g': Global, s: nat, space: Space, ex: Execution)
    requires Basic(g) && ExecuteStep(g, g', s, space, ex)
    ensures Basic(g') && Evolves(g, g')
  {
    hide PacketOk, EntryOk, LeaderOk, ExecutionOk, LbLe, Local, Indexed, Evolves;
    ExecuteKeeps(g, g', s, space, ex);
    forall r, id | 0 <= r < g.n && id in Sp(g', r)
      ensures EntryOk(g', r, id)
      ensures id.replica == r ==> LeaderOk(g.n, id, Sp(g', r)[id]) && id.instance <= CrtInstance(g', r)
    {
      assert EntryOk(g, r, id);
      StartedAt(g, r, id);
      ExecuteEntry(g, g', r, id);
    }
    forall p | p in g'.sent ensures PacketOk(g', p) {
      PacketEvolves(g, g', p);
    }
    forall r | 0 <= r < g.n ensures Local(g'.nodes[r].rs) {
      SameKeysLocal(g.nodes[r].rs, g'.nodes[r].rs);
    }
  }

  lemma SameKeysLocal(st: RState, st': RState)
    requires Local(st) && st' == st.(space := st'.space) && st'.space.Keys == st.space.Keys
    ensures Local(st')
  {
    LargerSpaceLocal(st, st');
  }

  lemma StartedAt(g: Global, r: nat, id: Id)
    requires r < |g.nodes| && id in Sp(g, r) && EntryOk(g, r, id)
    ensures Started(g, id)
  {
  }
}
