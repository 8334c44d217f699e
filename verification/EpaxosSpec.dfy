/** The EPaxos message handlers as functions on the state of a replica (epaxos/epaxos.go, without
    the recovery section). The class in EpaxosReplica computes these functions step by step. */
module EpaxosSpec {
  import opened State
  import opened DepGraph
  import opened Options
  import opened EpaxosTypes

  /** The fields the handlers of one replica read and write. */
  datatype RState = RState(
    id: nat,
    n: nat,
    f: nat,
    space: Space,
    crtInstance: seq<int>,
    committedUpTo: seq<int>,
    conflicts: seq<map<Key, InstPair>>,
    maxSeqPerKey: map<Key, int>,
    maxSeq: int,
    maxRecvBallot: int)

  datatype Msg =
    | PreAccept(id: Id, leaderId: nat, ballot: int, command: seq<Command>, seqno: int, deps: seq<int>)
    | PreAcceptReply(id: Id, ballot: int, vballot: int, seqno: int, deps: seq<int>, committedDeps: seq<int>,
                     status: Status)
    | Accept(id: Id, leaderId: nat, ballot: int, seqno: int, deps: seq<int>)
    | AcceptReply(id: Id, ballot: int)
    | Commit(id: Id, leaderId: nat, ballot: int, command: seq<Command>, seqno: int, deps: seq<int>)

  /** A message on its way. */
  datatype Packet = Packet(src: nat, dst: nat, msg: Msg)

  function FastQuorumSize(f: nat): nat {
    f + (f + 1) / 2
  }

  function NilDeps(n: nat): seq<int> {
    seq(n, _ => -1)
  }

  function Max(a: int, b: int): int {
    if a < b then b else a
  }

  // ---------------------------------------------------------------- conflict index

  /** The entry of one column and key after a command of the column's given instance. */
  function RecordCommand(column: map<Key, InstPair>, c: Command, instance: int): map<Key, InstPair> {
    if c.k in column then
      var p := column[c.k];
      column[c.k := InstPair(if p.last < instance then instance else p.last,
                             if p.lastWrite < instance && c.op != GET then instance else p.lastWrite)]
    else
      column[c.k := InstPair(instance, if c.op != GET then instance else -1)]
  }

  function RecordCommands(column: map<Key, InstPair>, cmds: seq<Command>, instance: int): map<Key, InstPair> {
    if cmds == [] then column
    else RecordCommand(RecordCommands(column, cmds[..|cmds| - 1], instance), cmds[|cmds| - 1], instance)
  }

  function RecordSeq(m: map<Key, int>, c: Command, seqno: int): map<Key, int> {
    if c.k in m && m[c.k] >= seqno then m else m[c.k := seqno]
  }

  function RecordSeqs(m: map<Key, int>, cmds: seq<Command>, seqno: int): map<Key, int> {
    if cmds == [] then m
    else RecordSeq(RecordSeqs(m, cmds[..|cmds| - 1], seqno), cmds[|cmds| - 1], seqno)
  }

  function UpdateConflicts(st: RState, cmds: seq<Command>, id: Id, seqno: int): RState
    requires id.replica < |st.conflicts|
  {
    st.(conflicts := st.conflicts[id.replica := RecordCommands(st.conflicts[id.replica], cmds, id.instance)],
        maxSeqPerKey := RecordSeqs(st.maxSeqPerKey, cmds, seqno))
  }

  // ---------------------------------------------------------------- attributes

  /** The last instance of a column that a command conflicts with, as far as the index knows. */
  function LastConflict(column: map<Key, InstPair>, c: Command): int
    requires c.k in column
  {
    if c.op != GET then column[c.k].last else column[c.k].lastWrite
  }

  /** The first command, from i on, whose last conflict is above dep: the scan of a batch stops there. */
  function FirstRaise(column: map<Key, InstPair>, cmds: seq<Command>, dep: int, i: nat): (d: Option<int>)
    ensures d.Some? ==> d.value > dep
    ensures d.Some? ==> exists j :: i <= j < |cmds| && cmds[j].k in column && d.value == LastConflict(column, cmds[j])
    decreases |cmds| - i
  {
    if i >= |cmds| then None
    else if cmds[i].k in column && LastConflict(column, cmds[i]) > dep then Some(LastConflict(column, cmds[i]))
    else FirstRaise(column, cmds, dep, i + 1)
  }

  /** Every conflict the index records is an instance of the space. */
  ghost predicate ConflictsKnown(st: RState) {
    && |st.conflicts| == st.n
    && forall q, k :: 0 <= q < st.n && k in st.conflicts[q] ==> PairKnown(st.space, q, st.conflicts[q][k])
  }

  ghost predicate PairKnown(space: Space, q: nat, p: InstPair) {
    && -1 <= p.lastWrite <= p.last && 0 <= p.last
    && Id(q, p.last) in space
    && (p.lastWrite >= 0 ==> Id(q, p.lastWrite) in space)
  }

  datatype Attributes = Attributes(seqno: int, deps: seq<int>, changed: bool)

  predicate SkippedColumn(st: RState, replica: nat, q: nat) {
    st.id != replica && q == replica
  }

  /** The first q columns of updateAttributes. */
  function UpdateDeps(st: RState, cmds: seq<Command>, seqno: int, deps: seq<int>, replica: nat, q: nat): (a: Attributes)
    requires ConflictsKnown(st) && q <= st.n == |deps|
    requires forall i :: 0 <= i < |deps| ==> -1 <= deps[i]
    ensures |a.deps| == st.n
    ensures forall i :: 0 <= i < q && !SkippedColumn(st, replica, i) ==>
              a.deps[i] == FirstRaise(st.conflicts[i], cmds, deps[i], 0).GetOr(deps[i])
    ensures forall i :: 0 <= i < st.n && (i >= q || SkippedColumn(st, replica, i)) ==> a.deps[i] == deps[i]
  {
    if q == 0 then Attributes(seqno, deps, false)
    else
      var a := UpdateDeps(st, cmds, seqno, deps, replica, q - 1);
      if SkippedColumn(st, replica, q - 1) then a
      else
        match FirstRaise(st.conflicts[q - 1], cmds, a.deps[q - 1], 0)
        case None => a
        case Some(d) =>
          var s := st.space[Id(q - 1, d)].seqno;
          Attributes(if a.seqno <= s then s + 1 else a.seqno, a.deps[q - 1 := d], true)
  }

  /** The loop over the keys at the end of updateAttributes. */
  function RaiseSeq(m: map<Key, int>, cmds: seq<Command>, a: Attributes, i: nat): (b: Attributes)
    requires i <= |cmds|
    ensures b.deps == a.deps
  {
    if i == 0 then a
    else
      var b := RaiseSeq(m, cmds, a, i - 1);
      if cmds[i - 1].k in m && b.seqno <= m[cmds[i - 1].k] then
        Attributes(m[cmds[i - 1].k] + 1, b.deps, true)
      else b
  }

  function UpdateAttributes(st: RState, cmds: seq<Command>, seqno: int, deps: seq<int>, replica: nat): (a: Attributes)
    requires ConflictsKnown(st) && |deps| == st.n
    requires forall i :: 0 <= i < |deps| ==> -1 <= deps[i]
    ensures |a.deps| == st.n
  {
    RaiseSeq(st.maxSeqPerKey, cmds, UpdateDeps(st, cmds, seqno, deps, replica, st.n), |cmds|)
  }

  function MergeDeps(own: nat, deps1: seq<int>, deps2: seq<int>): seq<int>
    requires |deps1| == |deps2|
  {
    seq(|deps1|, q requires 0 <= q < |deps1| => if q == own then deps1[q] else Max(deps1[q], deps2[q]))
  }

  predicate SameExcept(own: nat, deps1: seq<int>, deps2: seq<int>)
    requires |deps1| == |deps2|
  {
    forall q :: 0 <= q < |deps1| && q != own ==> deps1[q] == deps2[q]
  }

  /** changed holds the negation of the flag that mergeAttributes returns. */
  function MergeAttributes(own: nat, seq1: int, deps1: seq<int>, seq2: int, deps2: seq<int>): Attributes
    requires |deps1| == |deps2|
  {
    Attributes(Max(seq1, seq2), MergeDeps(own, deps1, deps2), seq1 != seq2 || !SameExcept(own, deps1, deps2))
  }

  // ---------------------------------------------------------------- sending

  /** The peers a broadcast goes to: distinct, never the sender, at most limit of them. */
  ghost predicate TargetsOk(st: RState, limit: int, targets: seq<nat>) {
    && |targets| <= limit
    && (forall i :: 0 <= i < |targets| ==> targets[i] < st.n && targets[i] != st.id)
    && forall i, j :: 0 <= i < j < |targets| ==> targets[i] != targets[j]
  }

  function Broadcast(src: nat, targets: seq<nat>, msg: Msg): (out: seq<Packet>)
    ensures |out| == |targets|
    ensures forall i :: 0 <= i < |out| ==> out[i] == Packet(src, targets[i], msg)
  {
    seq(|targets|, i requires 0 <= i < |targets| => Packet(src, targets[i], msg))
  }

  /** The status of the leader's bookkeeping of an instance at one replica. */
  ghost function StatusAt(st: RState, id: Id): Status {
    if id in st.space && st.space[id].lb.Some? then st.space[id].lb.value.status else NOTHING
  }

  /** The message makes the leader move to the given status. */
  ghost predicate MovesTo(st: RState, st': RState, id: Id, status: Status) {
    StatusAt(st, id) != status && StatusAt(st', id) == status
  }

  predicate PreAccepted(status: Status) {
    status == PREACCEPTED || status == PREACCEPTED_EQ
  }

  /** A leader that moves on tells as many peers as it wants to. */
  ghost predicate EnoughFor(st: RState, st': RState, id: Id, targets: seq<nat>) {
    && (MovesTo(st, st', id, ACCEPTED) ==> |targets| >= st.n / 2)
    && (MovesTo(st, st', id, COMMITTED) ==> |targets| == st.n - 1)
  }

  datatype Outcome = Outcome(st: RState, out: seq<Packet>)

  // ---------------------------------------------------------------- handlers

  function DefaultInstance(now: int): Instance {
    Instance(None, -1, -1, NOTHING, -1, [], None, 0, 0, now)
  }

  function NewLeaderBookkeeping(proposals: bool, n: nat, deps: seq<int>, ballot: int, cmds: seq<Command>): LeaderBookkeeping {
    LeaderBookkeeping(proposals, -1, true, 0, 0, 0, deps, NilDeps(n), ballot, cmds, PREACCEPTED, -1, deps)
  }

  /** The local invariant of a replica. */
  ghost predicate Local(st: RState) {
    && st.id < st.n
    && |st.crtInstance| == |st.committedUpTo| == st.n
    && (forall q :: 0 <= q < st.n ==> -1 <= st.committedUpTo[q] && -1 <= st.crtInstance[q])
    && ConflictsKnown(st)
  }

  /** startPhase1 for an instance of this replica. */
  function StartPhase1(st: RState, cmds: seq<Command>, instance: nat, ballot: int, proposals: bool, now: int,
                       targets: seq<nat>): Outcome
    requires Local(st)
  {
    var id := Id(st.id, instance);
    var a := UpdateAttributes(st, cmds, 0, NilDeps(st.n), st.id);
    var lb := NewLeaderBookkeeping(proposals, st.n, a.deps, ballot, cmds);
    var inst := Instance(Some(cmds), ballot, ballot, PREACCEPTED, a.seqno, a.deps, Some(lb), 0, 0, now);
    var st1 := UpdateConflicts(st.(space := st.space[id := inst]), cmds, id, a.seqno);
    var st2 := st1.(maxSeq := Max(st1.maxSeq, a.seqno));
    Outcome(st2, Broadcast(st.id, targets, PreAccept(id, st.id, ballot, cmds, -1, a.deps)))
  }

  /** handlePropose. */
  function Propose(st: RState, cmds: seq<Command>, proposals: bool, now: int, targets: seq<nat>): Outcome
    requires Local(st)
  {
    var instance := st.crtInstance[st.id] + 1;
    StartPhase1(st.(crtInstance := st.crtInstance[st.id := instance]), cmds, instance, st.id, proposals, now, targets)
  }

  /** What every message about an instance updates first. */
  function Notice(st: RState, id: Id, ballot: int): RState
    requires id.replica < |st.crtInstance|
  {
    st.(maxRecvBallot := Max(st.maxRecvBallot, ballot),
        crtInstance := st.crtInstance[id.replica := Max(st.crtInstance[id.replica], id.instance)])
  }

  function Lookup(st: RState, id: Id, now: int): Instance {
    if id in st.space then st.space[id] else DefaultInstance(now)
  }

  /** The part of handlePreAccept that updates the instance. */
  function RecordPreAccept(st: RState, m: Msg): (st': RState)
    requires ConflictsKnown(st) && m.PreAccept? && m.id.replica < st.n && |m.deps| == st.n && m.id in st.space
    requires forall i :: 0 <= i < |m.deps| ==> -1 <= m.deps[i]
    ensures m.id in st'.space
  {
    var inst := st.space[m.id];
    if Rank(inst.status) >= Rank(ACCEPTED) then
      var inst1 := inst.(bal := m.ballot);
      if inst.cmds.None? then
        UpdateConflicts(st.(space := st.space[m.id := inst1.(cmds := Some(m.command))]), m.command, m.id, m.seqno)
      else st.(space := st.space[m.id := inst1])
    else
      var a := UpdateAttributes(st, m.command, m.seqno, m.deps, m.id.replica);
      var inst1 := inst.(cmds := Some(m.command), seqno := a.seqno, deps := a.deps, bal := m.ballot,
                         vbal := m.ballot, status := if a.changed then PREACCEPTED else PREACCEPTED_EQ);
      UpdateConflicts(st.(space := st.space[m.id := inst1]), m.command, m.id, m.seqno)
  }

  function HandlePreAccept(st: RState, m: Msg, now: int): Outcome
    requires Local(st) && m.PreAccept? && m.leaderId == m.id.replica < st.n && |m.deps| == st.n
    requires forall i :: 0 <= i < |m.deps| ==> -1 <= m.deps[i]
  {
    var st0 := st.(maxSeq := if m.seqno >= st.maxSeq then m.seqno + 1 else st.maxSeq);
    var st1 := Notice(st0, m.id, m.ballot);
    var inst := Lookup(st1, m.id, now);
    var st2 := st1.(space := st1.space[m.id := inst]);
    if m.ballot < inst.bal then Outcome(st2, [])
    else
      var st4 := RecordPreAccept(st2, m);
      var i := st4.space[m.id];
      Outcome(st4, [Packet(st.id, m.leaderId,
                           PreAcceptReply(m.id, i.bal, i.vbal, i.seqno, i.deps, st4.committedUpTo, i.status))])
  }

  predicate DecidedAt(space: Space, id: Id) {
    id in space && Decided(space[id])
  }

  ghost function Above(space: Space, q: nat, u: int): set<Id> {
    set id | id in space && id.replica == q && id.instance > u
  }

  /** The last committed instance of column q before the first gap above u. */
  function CommittedFrom(space: Space, q: nat, u: int): (v: int)
    requires u >= -1
    ensures v >= u
    ensures forall i: nat :: u < i <= v ==> DecidedAt(space, Id(q, i))
    ensures !DecidedAt(space, Id(q, v + 1))
    decreases Above(space, q, u)
  {
    if Id(q, u + 1) in space && Decided(space[Id(q, u + 1)]) then
      assert Id(q, u + 1) in Above(space, q, u) && Id(q, u + 1) !in Above(space, q, u + 1);
      CommittedFrom(space, q, u + 1)
    else u
  }

  function UpdateCommitted(st: RState, q: nat): RState
    requires q < |st.committedUpTo| && st.committedUpTo[q] >= -1
  {
    st.(committedUpTo := st.committedUpTo[q := CommittedFrom(st.space, q, st.committedUpTo[q])])
  }

  /** How far each column is known to be committed, by the leader, by a replier, or here. */
  function MergeCommitted(mine: seq<int>, theirs: seq<int>, here: seq<int>): seq<int>
    requires |mine| == |theirs| == |here|
  {
    seq(|mine|, q requires 0 <= q < |mine| => Max(Max(mine[q], theirs[q]), here[q]))
  }

  /** The bookkeeping after one more PreAcceptReply, before the decision. */
  function Tally(st: RState, inst: Instance, lb: LeaderBookkeeping, m: Msg): (LeaderBookkeeping, bool)
    requires m.PreAcceptReply? && |lb.deps| == |m.deps| == st.n == |st.committedUpTo|
    requires |lb.committedDeps| == |m.committedDeps| == |inst.deps| == st.n
  {
    var lb1 := lb.(preAcceptOKs := lb.preAcceptOKs + 1);
    var lb2 := if m.vballot > lb1.ballot
               then lb1.(ballot := m.vballot, seqno := m.seqno, deps := m.deps, status := m.status) else lb1;
    var a := MergeAttributes(st.id, lb2.seqno, lb2.deps, m.seqno, m.deps);
    var lb3 := if st.n <= 3 then lb2 else lb2.(allEqual := lb2.allEqual && !a.changed);
    var lb4 := if st.n > 7
               then lb3.(committedDeps := MergeCommitted(lb3.committedDeps, m.committedDeps, st.committedUpTo)) else lb3;
    var allCommitted := st.n > 7 ==> forall q :: 0 <= q < st.n ==> lb4.committedDeps[q] >= inst.deps[q];
    var lb5 := if Rank(lb4.status) <= Rank(PREACCEPTED_EQ) then lb4.(deps := a.deps, seqno := a.seqno) else lb4;
    (lb5, allCommitted)
  }

  ghost predicate LeaderReady(st: RState, id: Id) {
    && id in st.space && st.space[id].lb.Some?
    && |st.space[id].deps| == |st.space[id].lb.value.deps| == |st.space[id].lb.value.committedDeps| == st.n
  }

  /** The instance as its leader fixes it. */
  function Settle(inst: Instance, lb: LeaderBookkeeping): Instance {
    inst.(status := lb.status, bal := lb.ballot, cmds := Some(lb.cmds), deps := lb.deps, seqno := lb.seqno,
          lb := Some(lb))
  }

  function CommitMsg(st: RState, id: Id, lb: LeaderBookkeeping): Msg {
    Commit(id, st.id, lb.ballot, lb.cmds, lb.seqno, lb.deps)
  }

  /** The end of handlePreAcceptReply: commit, or go to the Accept phase, or wait for more replies. */
  function Decide(st: RState, id: Id, lb: LeaderBookkeeping, allCommitted: bool, targets: seq<nat>): Outcome
    requires id in st.space && id.replica < |st.committedUpTo| && st.committedUpTo[id.replica] >= -1
  {
    var inst := st.space[id];
    if lb.preAcceptOKs >= FastQuorumSize(st.f) - 1 then
      if lb.allEqual && allCommitted && lb.lastTriedBallot == id.replica then
        var lb1 := lb.(status := COMMITTED);
        Outcome(UpdateCommitted(st.(space := st.space[id := Settle(inst, lb1)]), id.replica),
                Broadcast(st.id, targets, CommitMsg(st, id, lb1)))
      else
        var lb1 := lb.(status := ACCEPTED);
        Outcome(st.(space := st.space[id := Settle(inst, lb1)]),
                Broadcast(st.id, targets, Accept(id, st.id, lb1.lastTriedBallot, lb1.seqno, lb1.deps)))
    else
      Outcome(st.(space := st.space[id := inst.(lb := Some(lb))]), [])
  }

  function HandlePreAcceptReply(st: RState, m: Msg, targets: seq<nat>): Outcome
    requires Local(st) && m.PreAcceptReply? && m.id.replica < st.n && LeaderReady(st, m.id)
    requires |m.deps| == |m.committedDeps| == st.n
  {
    var inst := st.space[m.id];
    var lb := inst.lb.value;
    var st1 := st.(maxRecvBallot := Max(st.maxRecvBallot, m.ballot));
    if lb.lastTriedBallot > m.ballot then Outcome(st1, [])
    else if lb.lastTriedBallot < m.ballot then
      Outcome(st1.(space := st1.space[m.id := inst.(lb := Some(lb.(nacks := lb.nacks + 1)))]), [])
    else if lb.status != PREACCEPTED && lb.status != PREACCEPTED_EQ then Outcome(st1, [])
    else
      var (lb1, allCommitted) := Tally(st1, inst, lb, m);
      Decide(st1, m.id, lb1, allCommitted, targets)
  }

  function HandleAccept(st: RState, m: Msg, now: int): Outcome
    requires Local(st) && m.Accept? && m.id.replica < st.n
  {
    var st1 := Notice(st, m.id, m.ballot);
    var inst := Lookup(st1, m.id, now);
    var inst1 :=
      if m.ballot < inst.bal || Rank(inst.status) >= Rank(COMMITTED) then inst
      else inst.(deps := m.deps, seqno := m.seqno, bal := m.ballot, vbal := m.ballot);
    Outcome(st1.(space := st1.space[m.id := inst1]), [Packet(st.id, m.leaderId, AcceptReply(m.id, inst1.bal))])
  }

  function HandleAcceptReply(st: RState, m: Msg, targets: seq<nat>): Outcome
    requires Local(st) && m.AcceptReply? && m.id.replica < st.n
    requires m.id in st.space && st.space[m.id].lb.Some?
  {
    var inst := st.space[m.id];
    var lb := inst.lb.value;
    var st1 := st.(maxRecvBallot := Max(st.maxRecvBallot, m.ballot));
    if lb.status != ACCEPTED || lb.lastTriedBallot != m.ballot then Outcome(st1, [])
    else
      var lb1 := lb.(acceptOKs := lb.acceptOKs + 1);
      if lb1.acceptOKs + 1 > st.n / 2 then
        var lb2 := lb1.(status := COMMITTED);
        var st2 := UpdateCommitted(
          st1.(space := st1.space[m.id := inst.(lb := Some(lb2), status := COMMITTED)]), m.id.replica);
        Outcome(st2, Broadcast(st.id, targets, CommitMsg(st, m.id, lb2)))
      else
        Outcome(st1.(space := st1.space[m.id := inst.(lb := Some(lb1))]), [])
  }

  function HandleCommit(st: RState, m: Msg, now: int): Outcome
    requires Local(st) && m.Commit? && m.id.replica < st.n
  {
    var st1 := Notice(st, m.id, m.ballot);
    var inst := Lookup(st1, m.id, now);
    var st2 := st1.(space := st1.space[m.id := inst]);
    if Rank(inst.status) >= Rank(COMMITTED) || m.ballot < inst.bal then Outcome(st2, [])
    else
      var inst1 := inst.(bal := m.ballot, vbal := m.ballot, cmds := Some(m.command), seqno := m.seqno,
                         deps := m.deps, status := COMMITTED);
      var st3 := UpdateConflicts(st2.(space := st2.space[m.id := inst1]), m.command, m.id, m.seqno);
      Outcome(UpdateCommitted(st3, m.id.replica), [])
  }
}
