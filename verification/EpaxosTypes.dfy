/** The data that the EPaxos handlers and the EPaxos executor share (epaxos/epaxos.go, epaxos/defs.go). */
module EpaxosTypes {
  import opened State
  import opened Sequences
  import opened Traces
  import opened DepGraph
  import opened Options

  datatype Status = NOTHING | PREACCEPTED | PREACCEPTED_EQ | ACCEPTED | COMMITTED | EXECUTED

  /** The numeric value of a status; the code compares statuses. */
  function Rank(s: Status): nat {
    match s
    case NOTHING => 0
    case PREACCEPTED => 1
    case PREACCEPTED_EQ => 2
    case ACCEPTED => 3
    case COMMITTED => 4
    case EXECUTED => 5
  }

  /** The last instance, and the last one that is not a GET, of one column on one key. */
  datatype InstPair = InstPair(last: int, lastWrite: int)

  /** clientProposals says whether a client of this replica waits for the commands. */
  datatype LeaderBookkeeping = LeaderBookkeeping(
    clientProposals: bool,
    ballot: int,
    allEqual: bool,
    preAcceptOKs: nat,
    acceptOKs: nat,
    nacks: nat,
    originalDeps: seq<int>,
    committedDeps: seq<int>,
    lastTriedBallot: int,
    cmds: seq<Command>,
    status: Status,
    seqno: int,
    deps: seq<int>)

  /** cmds is None, and deps empty, as long as the code holds nil there. */
  datatype Instance = Instance(
    cmds: Option<seq<Command>>,
    bal: int,
    vbal: int,
    status: Status,
    seqno: int,
    deps: seq<int>,
    lb: Option<LeaderBookkeeping>,
    index: int,
    lowlink: int,
    proposeTime: int)

  type Space = map<Id, Instance>

  /** One reply sent to the client that proposed command idx of instance id. */
  datatype ClientReply = ClientReply(id: Id, idx: nat, value: Value)

  predicate Decided(inst: Instance) {
    inst.status == COMMITTED || inst.status == EXECUTED
  }

  function AttrsOf(inst: Instance): Attrs
    requires inst.cmds.Some?
  {
    Attrs(inst.cmds.value, inst.seqno, inst.deps)
  }

  function BatchesOf(g: Graph): Batches<Id> {
    map id | id in g :: g[id].cmds
  }
}
