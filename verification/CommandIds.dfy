/** How Fast Paxos and SwiftPaxos identify the commands of clients. */
module CommandIds {
  datatype CommandId = CommandId(clientId: int, seqNum: int)
}
