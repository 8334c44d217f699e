/** Failure-free EPaxos as a transition system: N = 2F + 1 replicas and the messages in flight.
    Messages may be delayed and reordered at will; none is duplicated. */
module EpaxosProtocol {
  import opened State
  import opened Sequences
  import opened Traces
  import opened DepGraph
  import opened Options
  import opened EpaxosTypes
  import opened EpaxosSpec
  import opened SccSearch
  import opened Replay

  /** What the executor of a replica has done. */
  datatype Execution = Execution(log: seq<Id>, store: Store, replies: seq<ClientReply>)

  datatype Node = Node(rs: RState, ex: Execution)

  /** net holds the messages in flight, sent every message ever sent. No message is ever sent twice
      (see NothingSentTwice), so sets lose nothing. */
  datatype Global = Global(n: nat, f: nat, init: Store, nodes: seq<Node>, net: set<Packet>, sent: set<Packet>)

  // ---------------------------------------------------------------- initial state

  function InitialReplica(id: nat, n: nat, f: nat): RState {
    RState(id, n, f, map[], NilDeps(n), NilDeps(n), seq(n, _ => map[]), map[], 0, -1)
  }

  ghost predicate Init(g: Global) {
    && g.n == 2 * g.f + 1 && g.f >= 1
    && |g.nodes| == g.n
    && (forall s :: 0 <= s < g.n ==> g.nodes[s] == Node(InitialReplica(s, g.n, g.f), Execution([], g.init, [])))
    && g.net == {} && g.sent == {}
  }

  // ---------------------------------------------------------------- steps

  /** The handler of m would not dereference nil or index out of range. */
  ghost predicate CanHandle(rs: RState, m: Msg) {
    && Local(rs) && m.id.replica < rs.n
    && (m.PreAccept? ==> m.leaderId == m.id.replica && |m.deps| == rs.n
                         && forall i :: 0 <= i < |m.deps| ==> -1 <= m.deps[i])
    && (m.PreAcceptReply? ==> LeaderReady(rs, m.id) && |m.deps| == |m.committedDeps| == rs.n)
    && (m.AcceptReply? ==> m.id in rs.space && rs.space[m.id].lb.Some?)
  }

  ghost function Handle(rs: RState, m: Msg, now: int, targets: seq<nat>): Outcome
    requires CanHandle(rs, m)
  {
    match m
    case PreAccept(_, _, _, _, _, _) => HandlePreAccept(rs, m, now)
    case PreAcceptReply(_, _, _, _, _, _, _) => HandlePreAcceptReply(rs, m, targets)
    case Accept(_, _, _, _, _) => HandleAccept(rs, m, now)
    case AcceptReply(_, _) => HandleAcceptReply(rs, m, targets)
    case Commit(_, _, _, _, _, _) => HandleCommit(rs, m, now)
  }

  ghost function SetOf(out: seq<Packet>): set<Packet> {
    set p | p in out
  }

  /** A client's command reaches its replica. Thrifty is on: the PreAccept goes to at most
      FastQuorumSize - 1 peers. */
  ghost predicate ProposeStep(g: Global, g': Global, s: nat, c: Command, waits: bool, now: int, targets: seq<nat>) {
    && s < |g.nodes| && Local(g.nodes[s].rs) && WellFormed(c)
    && TargetsOk(g.nodes[s].rs, FastQuorumSize(g.f) - 1, targets)
    && var o := Propose(g.nodes[s].rs, [c], waits, now, targets);
       g' == g.(nodes := g.nodes[s := g.nodes[s].(rs := o.st)], net := g.net + SetOf(o.out), sent := g.sent + SetOf(o.out))
  }

  ghost predicate DeliverStep(g: Global, g': Global, p: Packet, now: int, targets: seq<nat>) {
    && p in g.net && p.dst < |g.nodes| && CanHandle(g.nodes[p.dst].rs, p.msg)
    && TargetsOk(g.nodes[p.dst].rs, g.n, targets)
    && var o := Handle(g.nodes[p.dst].rs, p.msg, now, targets);
       g' == g.(nodes := g.nodes[p.dst := g.nodes[p.dst].(rs := o.st)],
                net := g.net - {p} + SetOf(o.out), sent := g.sent + SetOf(o.out))
  }

  /** The committed part of an instance space, as a graph. */
  function GraphOf(space: Space): Graph {
    map id | id in space && Decided(space[id]) && space[id].cmds.Some? :: AttrsOf(space[id])
  }

  function TimesOf(space: Space): Times {
    map id | id in space :: space[id].proposeTime
  }

  /** The log is a valid order of the committed graph, the store and the replies are its replay, and every
      waiting client has been answered once. No search is under way. */
  ghost predicate ExecutionOk(init: Store, space: Space, ex: Execution) {
    && LogIsExecuted(space, ex.log) && AllUnvisited(space)
    && ValidLog(GraphOf(space), TimesOf(space), ex.log)
    && ReplayOk(init, GraphOf(space), ex.store, ex.replies, ex.log)
    && RepliesComplete(space, true, ex.replies, ex.log)
  }

  /** The executor of one replica runs for a while: Exec.ExecuteCommands makes such steps. */
  ghost predicate ExecuteStep(g: Global, g': Global, s: nat, space: Space, ex: Execution) {
    && s < |g.nodes|
    && SearchFrame(g.nodes[s].rs.space, space) && g.nodes[s].ex.log <= ex.log
    && ExecutionOk(g.init, space, ex)
    && g' == g.(nodes := g.nodes[s := Node(g.nodes[s].rs.(space := space), ex)])
  }

  datatype Step =
    | Proposing(s: nat, c: Command, waits: bool, now: int, targets: seq<nat>)
    | Delivering(p: Packet, now: int, targets: seq<nat>)
    | Executing(s: nat, space: Space, ex: Execution)

  ghost predicate NextStep(g: Global, g': Global, step: Step) {
    match step
    case Proposing(s, c, waits, now, targets) => ProposeStep(g, g', s, c, waits, now, targets)
    case Delivering(p, now, targets) => DeliverStep(g, g', p, now, targets)
    case Executing(s, space, ex) => ExecuteStep(g, g', s, space, ex)
  }

  ghost predicate IsRun(run: seq<Global>, steps: seq<Step>) {
    && |run| == |steps| + 1
    && Init(run[0])
    && forall i :: 0 <= i < |steps| ==> NextStep(run[i], run[i + 1], steps[i])
  }

  // ---------------------------------------------------------------- the invariant: one instance

  ghost predicate Shape(g: Global) {
    && g.n == 2 * g.f + 1 && g.f >= 1
    && |g.nodes| == g.n
    && forall s :: 0 <= s < g.n ==>
         g.nodes[s].rs.id == s && g.nodes[s].rs.n == g.n && g.nodes[s].rs.f == g.f && Local(g.nodes[s].rs)
  }

  ghost function Sp(g: Global, s: nat): Space
    requires s < |g.nodes|
  {
    g.nodes[s].rs.space
  }

  /** The leader of id has proposed it. */
  ghost predicate Started(g: Global, id: Id) {
    id.replica < |g.nodes| && id in Sp(g, id.replica) && Sp(g, id.replica)[id].lb.Some?
  }

  /** The bookkeeping of the leader of id. */
  ghost function Lb(g: Global, id: Id): LeaderBookkeeping
    requires Started(g, id)
  {
    Sp(g, id.replica)[id].lb.value
  }

  predicate Fixed(lb: LeaderBookkeeping) {
    lb.status == ACCEPTED || lb.status == COMMITTED
  }

  predicate Open(lb: LeaderBookkeeping) {
    lb.status == PREACCEPTED || lb.status == PREACCEPTED_EQ
  }

  predicate GeDeps(a: seq<int>, b: seq<int>) {
    |a| == |b| && forall q :: 0 <= q < |a| ==> b[q] <= a[q]
  }

  /** The deps of an instance of column own may only grow in the other columns. */
  predicate Grown(own: nat, a: seq<int>, b: seq<int>) {
    GeDeps(a, b) && own < |a| && a[own] == b[own]
  }

  predicate AtLeastNil(deps: seq<int>) {
    forall q :: 0 <= q < |deps| ==> -1 <= deps[q]
  }

  ghost predicate LeaderOk(n: nat, id: Id, inst: Instance) {
    && inst.lb.Some?
    && var lb := inst.lb.value;
       && |lb.cmds| == 1 && AllWellFormed(lb.cmds) && inst.cmds == Some(lb.cmds)
       && |lb.deps| == |lb.originalDeps| == |lb.committedDeps| == |inst.deps| == n
       && lb.lastTriedBallot == id.replica && inst.bal == id.replica
       && (lb.ballot == -1 || lb.ballot == id.replica) && (lb.preAcceptOKs > 0 ==> lb.ballot == id.replica)
       && AtLeastNil(lb.originalDeps) && Grown(id.replica, lb.deps, lb.originalDeps)
       && (Open(lb) || Fixed(lb))
       && (Open(lb) ==> inst.status == PREACCEPTED)
       && (lb.status == ACCEPTED ==> inst.status == ACCEPTED)
       && (lb.status == COMMITTED ==> Decided(inst))
       && (Fixed(lb) ==> lb.ballot == id.replica && inst.deps == lb.deps && inst.seqno == lb.seqno)
  }

  /** The conflict index of a replica knows command c of instance id. */
  ghost predicate Indexed(rs: RState, id: Id, c: Command) {
    && id.replica < |rs.conflicts| && c.k in rs.conflicts[id.replica]
    && id.instance <= rs.conflicts[id.replica][c.k].last
    && (c.op != GET ==> id.instance <= rs.conflicts[id.replica][c.k].lastWrite)
  }

  ghost predicate EntryOk(g: Global, s: nat, id: Id)
    requires s < |g.nodes| && id in Sp(g, s)
  {
    var inst := Sp(g, s)[id];
    && Started(g, id) && (id.replica != s ==> inst.lb.None?)
    && (inst.bal == -1 || inst.bal == id.replica)
    && (inst.cmds.Some? ==> inst.cmds.value == Lb(g, id).cmds && |Lb(g, id).cmds| == 1
                            && Indexed(g.nodes[s].rs, id, Lb(g, id).cmds[0]))
    && (Decided(inst) ==> inst.cmds.Some? && inst.bal == id.replica && Lb(g, id).status == COMMITTED
                          && inst.seqno == Lb(g, id).seqno && inst.deps == Lb(g, id).deps)
  }

  ghost predicate Leaders(g: Global)
  {
    forall s, id :: 0 <= s < |g.nodes| && id in Sp(g, s) && id.replica == s ==>
      LeaderOk(g.n, id, Sp(g, s)[id]) && id.instance <= CrtInstance(g, s)
  }

  ghost function CrtInstance(g: Global, s: nat): int
    requires s < |g.nodes|
  {
    if s < |g.nodes[s].rs.crtInstance| then g.nodes[s].rs.crtInstance[s] else -1
  }

  ghost predicate Entries(g: Global) {
    forall s, id :: 0 <= s < |g.nodes| && id in Sp(g, s) ==> EntryOk(g, s, id)
  }

  // ---------------------------------------------------------------- the invariant: messages

  ghost predicate Delivered(g: Global, p: Packet) {
    p in g.sent && p !in g.net
  }

  ghost predicate PacketOk(g: Global, p: Packet) {
    var m := p.msg;
    && Started(g, m.id)
    && p.src < g.n && p.dst < g.n && p.src != p.dst
    && match m
       case PreAccept(id, leaderId, ballot, command, seqno, deps) =>
         && p.src == leaderId == id.replica && ballot == id.replica && seqno == -1
         && command == Lb(g, id).cmds && deps == Lb(g, id).originalDeps
       case PreAcceptReply(id, ballot, vballot, seqno, deps, committedDeps, status) =>
         && p.dst == id.replica && ballot == vballot == id.replica
         && Grown(id.replica, deps, Lb(g, id).originalDeps) && |committedDeps| == g.n
         && (status == PREACCEPTED || status == PREACCEPTED_EQ)
       case Accept(id, leaderId, ballot, seqno, deps) =>
         && p.src == leaderId == id.replica && ballot == id.replica && Fixed(Lb(g, id))
         && seqno == Lb(g, id).seqno && deps == Lb(g, id).deps
       case AcceptReply(id, ballot) =>
         && p.dst == id.replica && ballot == id.replica
       case Commit(id, leaderId, ballot, command, seqno, deps) =>
         && p.src == leaderId == id.replica && ballot == id.replica && Lb(g, id).status == COMMITTED
         && command == Lb(g, id).cmds && seqno == Lb(g, id).seqno && deps == Lb(g, id).deps
  }

  ghost predicate Packets(g: Global) {
    && g.net <= g.sent
    && forall p :: p in g.sent ==> PacketOk(g, p)
  }

  ghost predicate Basic(g: Global) {
    Shape(g) && Leaders(g) && Entries(g) && Packets(g)
  }

  // ---------------------------------------------------------------- what every step keeps

  /** The bookkeeping of a leader may move from a to b: what is fixed stays fixed. */
  ghost predicate LbLe(a: LeaderBookkeeping, b: LeaderBookkeeping) {
    && b.cmds == a.cmds && b.originalDeps == a.originalDeps && b.clientProposals == a.clientProposals
    && (Fixed(a) ==> Fixed(b) && b.seqno == a.seqno && b.deps == a.deps)
    && (a.status == COMMITTED ==> b.status == COMMITTED)
  }

  ghost predicate Evolves(g: Global, g': Global) {
    && g'.n == g.n && g'.f == g.f && g'.init == g.init && |g'.nodes| == |g.nodes|
    && (forall id :: Started(g, id) ==> Started(g', id) && LbLe(Lb(g, id), Lb(g', id)))
    && g.sent <= g'.sent
    && forall p :: Delivered(g, p) ==> Delivered(g', p)
  }

  ghost predicate IndexGrows(a: RState, b: RState) {
    forall x, c :: Indexed(a, x, c) ==> Indexed(b, x, c)
  }

  /** The step changes replica s only, and of its instance space only the entry of id. */
  ghost predicate Touch(g: Global, g': Global, s: nat, id: Id) {
    && s < |g.nodes| == |g'.nodes| && g'.n == g.n && g'.f == g.f && g'.init == g.init
    && var rs, rs' := g.nodes[s].rs, g'.nodes[s].rs;
       && g'.nodes == g.nodes[s := g.nodes[s].(rs := rs')]
       && rs'.id == rs.id && rs'.n == rs.n && rs'.f == rs.f && Local(rs')
       && id in rs'.space && rs'.space == rs.space[id := rs'.space[id]]
       && IndexGrows(rs, rs')
       && CrtInstance(g, s) <= CrtInstance(g', s)
  }

  /** If the touched instance is led by s, its bookkeeping only moves forward. */
  ghost predicate LeaderForward(g: Global, g': Global, s: nat, id: Id)
    requires Touch(g, g', s, id)
  {
    id.replica == s && id in Sp(g, s) && Sp(g, s)[id].lb.Some? ==>
      Sp(g', s)[id].lb.Some? && LbLe(Sp(g, s)[id].lb.value, Sp(g', s)[id].lb.value)
  }

  lemma TouchEvolves(g: Global, g': Global, s: nat, id: Id)
    requires Touch(g, g', s, id) && LeaderForward(g, g', s, id)
    requires g.sent <= g'.sent && forall p :: Delivered(g, p) ==> Delivered(g', p)
    ensures Evolves(g, g')
  {
    forall x | Started(g, x) ensures Started(g', x) && LbLe(Lb(g, x), Lb(g', x)) {
      assert x.replica != s ==> g'.nodes[x.replica] == g.nodes[x.replica];
    }
  }

  lemma PacketEvolves(g: Global, g': Global, p: Packet)
    requires Evolves(g, g') && PacketOk(g, p)
    ensures PacketOk(g', p)
  {
  }

  lemma EntryEvolves(g: Global, g': Global, s: nat, id: Id)
    requires Evolves(g, g') && s < |g.nodes| && id in Sp(g, s) && id in Sp(g', s)
    requires Sp(g, s)[id] == Sp(g', s)[id] && IndexGrows(g.nodes[s].rs, g'.nodes[s].rs)
    requires EntryOk(g, s, id)
    ensures EntryOk(g', s, id)
  {
  }

  /** A step that touches one entry keeps the invariant if it does so for that entry and for the
      messages it sends. */
  lemma TouchBasic(g: Global, g': Global, s: nat, id: Id)
    requires Basic(g) && Touch(g, g', s, id) && Evolves(g, g')
    requires EntryOk(g', s, id)
    requires id.replica == s ==> LeaderOk(g'.n, id, Sp(g', s)[id]) && id.instance <= CrtInstance(g', s)
    requires g'.net <= g'.sent
    requires forall p :: p in g'.sent && p !in g.sent ==> PacketOk(g', p)
    ensures Basic(g')
  {
    hide EntryOk, PacketOk, LeaderOk, Local, Indexed, LbLe;
    forall r, x | 0 <= r < |g'.nodes| && x in Sp(g', r) ensures EntryOk(g', r, x) {
      if r != s || x != id {
        assert x in Sp(g, r) && Sp(g, r)[x] == Sp(g', r)[x];
        EntryEvolves(g, g', r, x);
      }
    }
    forall p | p in g'.sent ensures PacketOk(g', p) {
      if p in g.sent {
        PacketEvolves(g, g', p);
      }
    }
    assert Leaders(g') by {
      forall r, x | 0 <= r < |g'.nodes| && x in Sp(g', r) && x.replica == r
        ensures LeaderOk(g'.n, x, Sp(g', r)[x]) && x.instance <= CrtInstance(g', r)
      {
        if r != s || x != id {
          assert x in Sp(g, r) && Sp(g, r)[x] == Sp(g', r)[x];
        }
      }
    }
  }
}
