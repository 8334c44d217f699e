# Verified models of the replication protocols

This project models the hard, self-contained parts of a collection of Paxos-family replication
protocols written in Go, and proves what they are for. Verify it with Dafny 4.11 by
`dafny verify dfyconfig.toml`. Source positions below are paths inside the repository.

Where the Go code changes fields step by step, the model has a class with those fields whose methods
follow the code statement by statement. Each method is tied to a function on the value of the state, and
the theorems are about these functions, so that a change to either side breaks a proof.

## Parts

* **Store and conflicts** (`State`, `Traces`). The key-value store with PUT, GET and SCAN, the conflict
  relation, and the theorem that two orders of the same batches that agree on every conflicting pair have
  the same store and replies.
* **EPaxos, the executor** (`DepGraph`, `SccSearch`, `EpaxosExec`, `Replay`). Tarjan's search over a graph
  whose edges are ranges, which executes components while it runs and may abort half-way. Whatever the
  root, ExecedUpTo, and earlier aborted searches, the log stays a *valid* one: dependency-closed, whole
  components, each after what it reaches, each sorted.
* **EPaxos, the protocol** (`EpaxosTypes`, `EpaxosReplica`, `EpaxosSpec`, `EpaxosProtocol`, `EpaxosBasic`,
  `EpaxosRounds`, `EpaxosVotes`, `EpaxosExecution`, `EpaxosSafety`, `EpaxosTheorems`). N = 2F + 1 replicas
  with F at least 1, any number of proposals, messages delayed and reordered at will, no failures. The
  invariant is proved step by step; the theorems are about every state of every run. Quorum intersection
  links conflicting committed instances, replicas agree on what is committed, and together with the
  executor and the trace theorem this gives state machine replication.
* **Meaning of replies** (`Semantics`, `EpaxosReplies`). What a sequence of commands leaves and replies, read
  off the commands alone; every waiting client of EPaxos is answered exactly once, with the right value.
* **EPaxos, decisions** (`EpaxosPaths`, `EpaxosAccepted`, `EpaxosColumns`, `EpaxosSeq`, `EpaxosRelevant`). In
  terms of the messages that arrived: when a leader moves on and by which path, that a slow commit rests on a
  majority, what CommittedUpTo and Seq mean, and that no dependency is spurious.
* **EPaxos, progress** (`EpaxosQuiet`, `EpaxosLive`). If all peers are alive, then once nothing is in
  flight every proposed instance is committed everywhere, nothing blocks the executor, and one round at
  each replica makes them equal.
* **EPaxos, the code takes these steps** (`EpaxosNode`). The methods of the classes `Replica` and `Exec`
  make steps of the transition system, so the theorems speak about them.
* **EPaxos, exact limits** (`EpaxosBatch`, `EpaxosTies`, `EpaxosTieRun`). When a batch of several commands
  is covered, and why clock readings must not decide between interfering instances: a failure-free run of
  three replicas that ends with different stores.
* **Fast Paxos** (`FastPaxosSpec`, `FastPaxosReplica`, `FastPaxos`, `FastPaxosLive`). Uncoordinated
  recovery with one fixed fast quorum; any message that was ever sent may arrive late, again, or never.
* **Fast Paxos, exact limits** (`FastPaxosLimits`, `FastPaxosRuns`). When a replica outside the quorum loses
  a committed value, when a replica dies on an unknown command, and a run of each from the initial state.
* **Quorums and ballots** (`Quorum`, `Ballots`). The backtracking enumeration, the coding of leader and
  quorum in ballots, and the search for an alive quorum.
* **Message sets** (`MsgSet`). What a call of the handler certifies, and when the handler has been called.
* **SwiftPaxos** (`HashLogSpec`, `HashLog`, `SwiftDep`, `SwiftIndex`, `SwiftScans`, `SwiftHashes`). The doubly linked
  hash log against a fold, its convergence with the leader's over many keys, comparison of dependencies,
  and the light conflict index with delivery.
* **Wire format** (`Wire`, `WireStream`). Commit and PreAccept with varint lengths.

## Findings

* The last comparison of the executor's sort reads a local clock (epaxos/exec.go:167,
  epaxos/epaxos.go:1513). If two instances of one component share Seq and replica, replicas can execute
  them in different orders and end in different stores (`EpaxosTies.TieSplitsStores`);
  `DepGraph.OrderForcedIffNoTies` shows that this is the only way. The protocol does not rule such ties
  out: the PreAccept carries Seq -1 and a peer records that Seq (epaxos/epaxos.go:507, 765, 828), so two
  instances of one replica can receive the same Seq. `EpaxosTieRun.ReplicasDiverge` is a failure-free run
  of three replicas in which this happens: two PUTs of one leader reach a peer in the other order, that
  peer's GET closes a cycle through all three, and in the end two replicas that agree on everything
  committed and have executed the same three instances hold different stores.
* In a batch the scan of a column stops at the first command that raises the dependency
  (epaxos/epaxos.go:676) and can lose a larger one (`EpaxosBatch.BatchMissesConflict`).
* Without failures no handler of EPaxos meets a nil instance or bookkeeping
  (`EpaxosSafety.EveryMessageCanBeHandled`).
* A Fast Paxos replica outside the quorum can overwrite a committed value (fastpaxos/fastpaxos.go:81): when
  the instance that it proposes for next is committed there, over a gap, with another command.
  `FastPaxosRuns.OutsiderLosesCommittedValue` is a run in which this happens and the replica then executes
  another command than the members. `FastPaxosLimits.CommittedValuesStayIff` shows that this guard is the
  only way in any run, and `FastPaxosLimits.MembersNeverOverwrite` that it never holds at a member.
* A Fast Paxos replica that commits a command before a client has sent it dies (fastpaxos/fastpaxos.go:205).
  `FastPaxosRuns.MemberDies` is such a run of the quorum's members; `FastPaxosLimits.ReplicaDiesIff` is the
  exact condition on the state and the arriving message.
* `SameHigher` can return sameAs unchanged when higherThan is below the number of quorums; the exact
  condition is in `Ballots.SameHigherWorks`.
* `Dep.Equals` can deny the equality of equal sets when lists hold duplicates. Dependencies of PUTs and GETs
  never do (`SwiftIndex.DepDistinctIff`), but those of a SCAN can, and two replicas that see two SCANs in
  different orders then compute equal sets that `Equals` tells apart (`SwiftScans.ScanDepsMiscompared`).
* A value of 65536 bytes or more does not survive the wire, because its length is written into 16 bits of
  a four-byte field.

## Model

| member | source | states |
|---|---|---|
| `State.ComputeConflictBatch` | state/state.go:147-156 | the double loop answers true exactly when some pair of commands of the two batches conflicts |
| `State.ConflictSymmetric` | state/state.go:122-145 | Conflict does not depend on the order of its arguments, SCAN and wrap-around of its upper bound included |
| `State.KVState.Execute` | state/state.go:162-193 | a PUT stores its value and replies NIL, a GET replies the stored value or NIL, a SCAN the values from K to K plus count, wrapped and inclusive, and nothing else changes the store |
| `State.KVState.Scan` | state/state.go:177-189 | iterating over the selected keys in ascending order yields the concatenated values of the whole inclusive range |
| `State.ScanFrame` | state/state.go:177-189 | a PUT outside the range of a SCAN does not change what it returns |
| `State.ReplyFrame` | state/state.go:122-145 | a command that does not conflict with c leaves the reply of c unchanged |
| `State.NonConflictingCommute` | state/state.go:122-193 | commands for which Conflict is false commute: same store and same two replies in either order |
| `State.ConflictIff` | state/state.go:122-145 | for commands that read or write, Conflict holds if and only if for some values and some store the two orders differ in the store or in a reply |
| `Semantics.StoreHolds` | state/state.go:162-170 | after any sequence of commands each key holds the last value put, or what it held at the start if nothing was put |
| `Semantics.RepliesAreRight` | state/state.go:162-193 | in any sequence of commands a GET replies what its key holds then or NIL, a SCAN the values of the present keys of its range in ascending order of keys, and any other command NIL |
| `Semantics.GetReplies` | state/state.go:171-175 | in any sequence of commands a GET replies the value of the last earlier PUT on its key, else the initial value, else NIL |
| `Semantics.InstancesAreCommands` | epaxos/exec.go:118-144 | executing instances one after the other gives the store and the replies of their commands in one sequence |
| `Traces.BatchesCommute` | state/state.go:147-193 | batches without a conflicting pair commute in the store and in every reply of both |
| `Traces.OrdersAgree` | state/state.go:122-193 | two orders of the same batches that agree on every conflicting pair end in the same store and give every batch the same replies |
| `DepGraph.AppendComponent` | epaxos/exec.go:118-146 | executing one more whole component, all of whose outside successors are executed, in sorted order, keeps the log a valid execution order |
| `DepGraph.SameOrder` | epaxos/exec.go:58-168 | two replicas that agree on the attributes of what both executed put every pair connected by a dependency path in the same order, unless the pair ties on Seq and replica inside one component |
| `DepGraph.OrderForcedIffNoTies` | epaxos/exec.go:160-168 | the committed graph forces the order of connected pairs for all clock readings if and only if no two executed instances of one component share Seq and replica |
| `DepGraph.OrderInLog` | epaxos/exec.go:160-168 | in a valid execution, instances of one component stand in the order of Seq, then replica, then clock reading, and no instance stands before one of another component that it reaches |
| `DepGraph.ValidLogTransfer` | epaxos/exec.go:58-148 | whether a log is a valid execution order depends only on the attributes of its own instances |
| `EpaxosExec.SortNodes` | epaxos/exec.go:160-168 | the component is permuted into an order in which no later node is less than an earlier one, by Seq, replica and proposeTime |
| `EpaxosExec.VisitedIsOnStack` | epaxos/exec.go:110-114 | a COMMITTED instance with non-zero Index is on the stack, so inStack never answers false where it is called |
| `EpaxosExec.Exec.InStack` | epaxos/exec.go:151-158 | the linear search answers membership in the stack |
| `EpaxosExec.Exec.ExecuteInstance` | epaxos/exec.go:118-144 | the store is that of the whole batch although commands other than PUT are skipped when no client waits; if one waits, every command but a no-op gets exactly one new reply with its result, and otherwise none is sent |
| `EpaxosExec.Exec.ExecuteComponent` | epaxos/exec.go:124-144 | a sorted component is appended to the log, marked EXECUTED, and the store and replies stay the replay of the log |
| `EpaxosExec.Exec.StrongConnect` | epaxos/exec.go:58-149 | terminates with fewer unvisited instances on every instance space; on success everything v reaches is on the stack below or executed and its lowlink is justified, on failure something v reaches is not committed; at every exit the log is a valid execution order |
| `EpaxosExec.Exec.ScanColumn` | epaxos/exec.go:77-115 | the range of dependencies of one column, from ExecedUpTo+1 on, is scanned completely or the search aborts on a dependency that is not ready |
| `EpaxosExec.Exec.PopIfRoot` | epaxos/exec.go:118-146 | when Lowlink equals Index the top of the stack is exactly one strongly connected component whose outside successors are executed; it is executed and popped |
| `EpaxosExec.Exec.ResetIndexes` | epaxos/exec.go:51-54 | after the search every instance that is not EXECUTED has Index 0 again |
| `EpaxosExec.Exec.FindSCC` | epaxos/exec.go:46-56 | true or false, the executed set is dependency-closed and was executed in whole sorted components; it returns true exactly when the root is executed, which is exactly when nothing the root reaches lacks a commit |
| `EpaxosExec.Exec.ExecuteCommand` | epaxos/exec.go:25-42 | answers true exactly when the instance is executed, exactly when nothing it reaches is unknown or uncommitted |
| `EpaxosExec.Exec.ExecuteCommands` | epaxos/epaxos.go:385-433 | after one round every instance up to the first gap of its column is executed or waits for something uncommitted; nothing is undone |
| `EpaxosExec.Exec.AdvanceExeced` | epaxos/epaxos.go:398-424 | ExecedUpTo moves by one only over an executed instance, so everything up to it is executed |
| `Replay.ReplayStep` | epaxos/exec.go:124-143 | executing one more instance keeps the store equal to the replay of the log and every reply sent equal to that of the replay |
| `EpaxosReplica.Replica.Bcast` | epaxos/epaxos.go:510-526 | the loop sends to distinct alive peers, never to itself, at most n, and exactly n when all are alive |
| `EpaxosReplica.Replica.BcastCommit` | epaxos/epaxos.go:605-610 | the loop sends to every alive peer once |
| `EpaxosReplica.Replica.UpdateCommitted` | epaxos/epaxos.go:619-627 | CommittedUpTo moves to the last instance before the first one that is not decided |
| `EpaxosReplica.Replica.UpdateConflicts` | epaxos/epaxos.go:629-655 | the conflict index and the per-key maximal Seq become those of the specification, command by command |
| `EpaxosReplica.Replica.UpdateAttributes` | epaxos/epaxos.go:657-691 | the nested loops with their break compute the specified Seq, Deps and changed flag |
| `EpaxosReplica.Replica.MergeAttributes` | epaxos/epaxos.go:693-713 | the merge is the column-wise maximum outside the own column, and equal reports exactly whether nothing differed |
| `EpaxosReplica.Replica.StartPhase1` | epaxos/epaxos.go:751-779 | the new instance, the index and the PreAccept broadcast are those of the specification |
| `EpaxosReplica.Replica.HandlePropose` | epaxos/epaxos.go:724-749 | the whole new state and the messages sent are those of Propose |
| `EpaxosReplica.Replica.HandlePreAccept` | epaxos/epaxos.go:781-845 | the whole new state and the reply are those of the specification, on every branch |
| `EpaxosReplica.Replica.HandlePreAcceptReply` | epaxos/epaxos.go:847-972 | the whole new state and the messages sent are those of the specification: ignored, nack counted, tallied, fast commit, or Accept phase |
| `EpaxosReplica.Replica.MergeCommitted` | epaxos/epaxos.go:898-910 | the committed columns are the maxima of three sources, and allCommitted says whether they cover the instance's Deps |
| `EpaxosReplica.Replica.HandleAccept` | epaxos/epaxos.go:974-1006 | the whole new state and the reply are those of the specification; Status is not touched |
| `EpaxosReplica.Replica.HandleAcceptReply` | epaxos/epaxos.go:1008-1064 | the whole new state and the messages sent are those of the specification: the commit happens at a majority |
| `EpaxosReplica.Replica.HandleCommit` | epaxos/epaxos.go:1066-1113 | the whole new state is that of the specification; a decided instance is left alone |
| `EpaxosBatch.BatchCoveredIff` | epaxos/epaxos.go:657-691 | updateAttributes records every conflict of a batch that the index knows if and only if in each column the first command that raises the dependency has the largest conflict; a batch of one always does |
| `EpaxosBatch.ColumnCoveredIff` | epaxos/epaxos.go:663-679 | the same for one column: the condition on the command at which the break happens is exact |
| `EpaxosBatch.BatchMissesConflict` | epaxos/epaxos.go:629-679 | a replica that has recorded two PUTs of one leader gives a batch of two PUTs on their keys a dependency on the earlier instance only: the larger conflict is lost by the break |
| `EpaxosBatch.BatchIsIndexed` | epaxos/epaxos.go:629-655 | after updateConflicts every command of any batch is in the index, and nothing is forgotten |
| `EpaxosBatch.BatchIsRecorded` | epaxos/epaxos.go:629-648 | exactly what a batch does to a column of the index, key by key: the last instance and the last write move to the instance for the keys that the batch touches and writes, and nothing else changes |
| `EpaxosBatch.BatchSeqIsRecorded` | epaxos/epaxos.go:649-655 | exactly what a batch does to the per-key maximal Seq |
| `EpaxosBatch.AttributesExact` | epaxos/epaxos.go:657-691 | for any batch Seq ends at the least value that is not below the given one and above the Seq of every instance that a column adds and of every key of the batch, and the flag says whether Seq or Deps changed |
| `EpaxosBasic.RecordKeepsLocal` | epaxos/epaxos.go:629-655 | recording a command makes the index know it and makes it forget nothing |
| `EpaxosBasic.BasicPropose` | epaxos/epaxos.go:724-779 | a proposal keeps the agreement invariant and touches one fresh entry |
| `EpaxosBasic.BasicPreAccept` | epaxos/epaxos.go:781-845 | a PreAccept keeps the agreement invariant and answers with grown Deps outside the leader's column |
| `EpaxosBasic.BasicReply` | epaxos/epaxos.go:847-972 | a PreAcceptReply keeps the agreement invariant: the leader decides exactly when enough replies are in, and what is fixed stays fixed |
| `EpaxosBasic.BasicAccept` | epaxos/epaxos.go:974-1006 | an Accept keeps the agreement invariant |
| `EpaxosBasic.BasicAcceptReply` | epaxos/epaxos.go:1008-1064 | an AcceptReply keeps the agreement invariant |
| `EpaxosBasic.BasicCommit` | epaxos/epaxos.go:1066-1113 | a Commit keeps the agreement invariant: the entry becomes what the leader decided |
| `EpaxosRounds.DecidedMeansAllReplied` | epaxos/epaxos.go:847-972 | once a leader has decided, every peer it asked has replied and no PreAccept or reply about the instance is in flight |
| `EpaxosRounds.RoundsReply` | epaxos/epaxos.go:870-971 | the number of replies counted is the number of distinct peers whose reply arrived, and the merged Deps dominate every reply |
| `EpaxosRounds.RoundsPreAccept` | epaxos/epaxos.go:781-845 | a peer replies once, and only if it was asked and did not know the instance |
| `EpaxosRounds.RoundsAcceptReply` | epaxos/epaxos.go:1008-1064 | AcceptReplies answer Accepts that arrived, after the decision |
| `EpaxosPaths.LeaderMovesOn` | epaxos/epaxos.go:847-972 | in every run, when a PreAcceptReply reaches its leader: before the F + (F + 1) / 2 - 1st reply nothing is sent, and at that reply the leader commits and sends Commits if all replies that arrived carry the same Seq and Deps (and with more than seven replicas cover the columns), and otherwise enters the Accept phase and sends Accepts |
| `EpaxosPaths.PathTaken` | epaxos/epaxos.go:847-1057 | in every state of every run: a leader that committed without AcceptReplies has unanimous replies and sent no Accept; one in or beyond the Accept phase has two different replies or an uncovered column; it commits at the F-th AcceptReply; its Seq and Deps are the column-wise largest among the replies |
| `EpaxosAccepted.SlowCommitsRestOnAMajority` | epaxos/epaxos.go:974-1057 | in every run, when a leader has committed by way of AcceptReplies, at least F + 1 replicas hold the Seq and Deps that it decided |
| `EpaxosColumns.CommittedUpToIsExact` | epaxos/epaxos.go:620-627 | in every run, at every replica, CommittedUpTo of a column is the last instance before the first one that is not committed there |
| `EpaxosSeq.ProposalsExceedTheirDeps` | epaxos/epaxos.go:724-779 | in every run a new instance gets a Seq above that of every instance it depends on and above the largest recorded for its key |
| `EpaxosSeq.AnswersExceedTheirDeps` | epaxos/epaxos.go:781-845 | in every run the answer to a PreAccept exceeds in Seq what the replica knows of every dependency that it adds, says exactly whether it changed Seq or Deps, and carries the replica's committed columns |
| `EpaxosRelevant.NoSpuriousDependencies` | epaxos/epaxos.go:629-691 | in every run, where the committed Deps of an instance end in a column there is a proposed instance on the same key, and one of the two commands is not a GET |
| `EpaxosVotes.AttributesCover` | epaxos/epaxos.go:657-691 | updateAttributes makes a PUT or GET depend on every conflicting one in the index, outside the skipped column |
| `EpaxosVotes.VotesPropose` | epaxos/epaxos.go:751-779 | the leader's own Deps cover every interfering instance it has voted on |
| `EpaxosVotes.VotesPreAccept` | epaxos/epaxos.go:781-845 | a replica that votes on two interfering instances lets the later one depend on the earlier one |
| `EpaxosSafety.StepInv` | epaxos/epaxos.go:724-1113 | every step of the protocol keeps the whole invariant, and leaders' decisions are never revised |
| `EpaxosSafety.RunInv` | epaxos/epaxos.go:724-1113 | the invariant holds in every state of every failure-free run |
| `EpaxosSafety.EveryMessageCanBeHandled` | epaxos/epaxos.go:781-1113 | in every run no handler dereferences nil or indexes out of range on any message in flight |
| `EpaxosSafety.NothingSentTwice` | epaxos/epaxos.go:494-611 | no step sends a message twice or one that was sent before, so modelling the network as a set loses nothing |
| `EpaxosExecution.ExecutionKept` | epaxos/exec.go:58-149 | whatever the handlers do meanwhile, what a replica has executed stays a valid execution of its committed graph with the same store and replies |
| `EpaxosTheorems.FastQuorumsIntersect` | replica/replica.go:132-134 | two sets of F+(F+1)/2 of 2F+1 replicas share one when F is at least 1 |
| `EpaxosTheorems.DecidedLinked` | epaxos/epaxos.go:870-971 | two decided instances with conflicting commands: one lies in the other's Deps, by intersection of the voters, max-merging, and the leader's own column |
| `EpaxosTheorems.ConflictsAreLinked` | epaxos/epaxos.go:629-713 | in every failure-free run any two committed instances with conflicting single PUT or GET commands are linked by the committed Deps of one of them |
| `EpaxosTheorems.CommittedAgree` | epaxos/epaxos.go:912-971 | a committed instance has the same commands, Seq and Deps at every replica and at every later moment |
| `EpaxosTheorems.RunKeeps` | epaxos/epaxos.go:1082-1088 | a committed entry stays committed and the execution log only grows, over any stretch of a run |
| `EpaxosTheorems.SameExecution` | epaxos/exec.go:118-146 | valid logs of the same instances over agreeing, linked graphs end in the same store and give every instance other than a SCAN the same replies |
| `EpaxosTheorems.StateMachineReplication` | epaxos/exec.go:118-144 | in every failure-free run two replicas, at any two moments, that executed the same instances hold equal stores, and every reply one sent for a command other than SCAN is the one the other's execution gives, unless interfering instances tie on Seq and replica |
| `EpaxosTheorems.ClocksDoNotMatterIff` | epaxos/exec.go:160-168 | in every run the hypothesis of the replication theorem holds if and only if every execution of the same committed graph, whatever its clock readings, keeps the order of the interfering instances |
| `EpaxosTheorems.ConflictOrderForcedIff` | epaxos/exec.go:160-168 | a linked committed graph forces the order of its interfering instances for all clock readings if and only if no two of them share Seq and replica inside a component |
| `EpaxosReplies.EveryClientIsAnsweredOnce` | epaxos/exec.go:118-144 | in every run the command of a proposal has an answer at a replica if and only if that replica took the proposal for a waiting client and has executed the instance and the command is not a no-op, and no command is answered twice |
| `EpaxosReplies.EveryAnswerIsRight` | epaxos/exec.go:118-144 | in every run an answer carries what its command gives at its place in the sequence of all commands that the replica has executed |
| `EpaxosReplies.StoreIsLastPuts` | epaxos/exec.go:118-144 | in every run the store of a replica holds for every key the last value put by the commands it has executed |
| `EpaxosTies.TieSplitsStores` | epaxos/exec.go:166-168 | a concrete linked committed graph with such a tie and two valid executions of it that end in different stores |
| `EpaxosTieRun.ReplicasDiverge` | epaxos/epaxos.go:751-972 | a failure-free run of the protocol, from an arbitrary initial store, after which two replicas have the same committed graph and executed the same three instances, yet hold different stores: the tie hypothesis of the replication theorem cannot be dropped |
| `EpaxosQuiet.RunProgress` | epaxos/epaxos.go:847-1113 | when no broadcast is cut short, every message is answered, counted and leads on: exact counts of PreAccept and Accept replies in every state |
| `EpaxosQuiet.QuietRunsCommitEverything` | epaxos/epaxos.go:847-1113 | if moreover nothing is in flight, every proposed instance is committed at every replica |
| `EpaxosLive.NothingBlocked` | epaxos/exec.go:76-99 | then nothing that a proposed instance reaches blocks the search, dependency ranges included |
| `EpaxosLive.QuietReplicasAgree` | epaxos/epaxos.go:385-433 | then, after one executor round each, any two replicas have executed exactly the proposed instances, and hold equal stores unless interfering instances tie |
| `EpaxosNode.StartNode` | epaxos/epaxos.go:134-177 | a new replica object is a node of the initial state of the transition system |
| `EpaxosNode.TakeProposal` | epaxos/epaxos.go:724-779 | what the class does on a proposal is a step of the protocol, and a full one if all peers are alive |
| `EpaxosNode.TakeMessage` | epaxos/epaxos.go:781-1113 | what the class does on any message in flight is a step of the protocol, and a full one if all peers are alive |
| `EpaxosNode.TakeExecution` | epaxos/epaxos.go:385-433 | a round of the executor class is a step of the protocol and settles every column |
| `FastPaxosReplica.Replica.HandleProposal` | fastpaxos/fastpaxos.go:73-92 | the whole new state and the messages sent are those of the specification |
| `FastPaxosReplica.Replica.HandleM2B` | fastpaxos/fastpaxos.go:94-96 | the message joins the set of its ballot, and everything that follows, recursion included, is that of the specification |
| `FastPaxosReplica.Replica.HandleM2Bs` | fastpaxos/fastpaxos.go:98-150 | a complete set commits if all values agree, is dropped if the instance's ballot differs, and otherwise recovers the last value by cballot and replica and votes again |
| `FastPaxosReplica.Replica.FindLast` | fastpaxos/fastpaxos.go:122-128 | the message that sorting puts last: no other has a higher cballot, nor the same with a higher replica |
| `FastPaxosReplica.Replica.Commit` | fastpaxos/fastpaxos.go:188-216 | the value is installed and the loop executes the gap-free committed instances, each command once, or dies on an unknown one |
| `FastPaxosSpec.RecoveryShrinks` | fastpaxos/fastpaxos.go:122-149 | the recursion between message sets ends: each recovery leaves fewer ballots with messages above it |
| `FastPaxos.CompleteChooses` | fastpaxos/fastpaxos.go:103-128 | a complete set of the fixed quorum: at ballot 1, and at ballot 0 by recovery or agreement, the value is what the highest member proposed |
| `FastPaxos.HandleOk` | fastpaxos/fastpaxos.go:94-150 | a message keeps the invariant of the replica and of everything it sends |
| `FastPaxos.MembersCommitTheHighestProposal` | fastpaxos/fastpaxos.go:111-149 | in every run a member of the quorum commits for each instance what the quorum's highest member proposed there |
| `FastPaxos.OnlyTwoBallots` | fastpaxos/fastpaxos.go:138-149 | in every run all instances are at ballot 0 or 1 and only these ballots gather messages, so commits happen there only |
| `FastPaxos.CommittedOnce` | fastpaxos/fastpaxos.go:197-202 | if the highest member proposes distinct commands, values committed at members are equal exactly for equal instances |
| `FastPaxos.MembersExecuteAPrefix` | fastpaxos/fastpaxos.go:188-216 | a member has executed a gap-free prefix of the highest member's proposals, each command once, with the store that results; if it died, then on the next command and because no client had sent it that command |
| `FastPaxos.ExecutionsAreComparable` | fastpaxos/fastpaxos.go:188-216 | the executions of any two members are prefixes of one another, and equal lengths mean equal stores |
| `FastPaxosLive.HandleLive` | fastpaxos/fastpaxos.go:94-150 | a complete set is always acted on: committed, or moved to ballot 1 and announced, or stale |
| `FastPaxosLive.SettledRunsCommitEverything` | fastpaxos/fastpaxos.go:98-149 | once the members' messages have arrived at the members, every instance that all of them proposed for is committed and executed at every member, collisions included |
| `FastPaxosLimits.CommittedValuesStayIff` | fastpaxos/fastpaxos.go:73-92 | in every run, a replica holds what the quorum chose for every instance that it has committed, at every moment, if and only if it never handles a proposal while the next instance is committed there with another command |
| `FastPaxosLimits.CommittedValueChangesIff` | fastpaxos/fastpaxos.go:73-150 | in every run, one step changes the value of a committed instance if and only if it is such a proposal, or it completes a set and so brings back a chosen value that was lost |
| `FastPaxosLimits.MembersNeverOverwrite` | fastpaxos/fastpaxos.go:79-81 | in every run, the next instance of a member of the quorum is not committed there, so the guard never holds at a member |
| `FastPaxosRuns.OutsiderLosesCommittedValue` | fastpaxos/fastpaxos.go:73-216 | a run of three replicas with a quorum of two, from any initial store: the third commits an instance over a gap, overwrites it with its second proposal, and ends with other commands executed and another store than a member |
| `FastPaxosLimits.ReplicaDiesIff` | fastpaxos/fastpaxos.go:94-216 | in every run, an arriving message kills a replica if and only if it makes the replica commit and, with the value installed, the gap-free committed stretch after lastExecuted holds a command that is neither delivered nor received from a client |
| `FastPaxosLimits.ProposerDiesIff` | fastpaxos/fastpaxos.go:73-216 | the same condition for a client's proposal, whose own message may complete a set |
| `FastPaxosLimits.CommitDiesIff` | fastpaxos/fastpaxos.go:188-216 | the same condition for commit alone, in any state |
| `FastPaxosRuns.MemberDies` | fastpaxos/fastpaxos.go:94-216 | a run in which two members propose different commands for an instance, both recover, and the lower one commits a command that no client has sent it and dies |
| `Quorum.FastQuorumsMeetMajorities` | replica/quorum.go:18-34 | what two three-quarters quorums share meets every majority, for every number of replicas |
| `Quorum.Equals` | replica/quorum.go:88-97 | comparing sizes and scanning one side decides equality of quorums |
| `Quorum.FoundAll` | replica/quorum.go:260-279 | the backtracking visits exactly the k-element extensions of the current choice, each once, although it recurses below zero |
| `Quorum.Enumeration.Subsets` | replica/quorum.go:260-279 | terminates, restores q, and stores what it finds under each member in order |
| `Quorum.Enumeration.Keep` | replica/quorum.go:263-271 | a complete quorum is stored at each of its members under the next free id |
| `Quorum.NewQuorumSet` | replica/quorum.go:225-242 | the quorum set holds for each leader the enumeration's quorums that contain it, numbered from 0 |
| `Quorum.EnumerationIsComplete` | replica/quorum.go:229-242 | each leader gets exactly the k-subsets containing it, each once, under contiguous ids from 0 |
| `Ballots.QuorumCount` | replica/quorum.go:263-271 | every leader has the same number of quorums, the binomial coefficient of n-1 over k-1 |
| `Ballots.EnumerationIsReady` | replica/quorum.go:225-258 | what the enumeration builds meets the hypothesis of the ballot theorems: every leader has its quorums under contiguous ids from 0, equally many, and at least one |
| `Ballots.BallotOf` | replica/quorum.go:251-258 | answers the ballot of a leader's quorum, and -1 exactly when the leader has no such quorum |
| `Ballots.BallotCoding` | replica/quorum.go:244-258 | below n times the number of quorums every ballot is the code of its leader and of the quorum that AQ returns |
| `Ballots.BallotDecodes` | replica/quorum.go:244-258 | AQ and Leader decode the ballot of any leader and quorum id, and the ballot is below n times the number of quorums |
| `Ballots.EveryBallotHasAQuorum` | replica/quorum.go:244-249 | the quorum of every ballot has the right size and contains the ballot's leader |
| `Ballots.SameHigherWorks` | replica/quorum.go:138-142 | leader and quorum are kept, and the result is above higherThan if and only if there are two replicas or more and higherThan reaches the number of quorums, or sameAs exceeds the remainder of higherThan |
| `Ballots.FindAliveQuorum` | swift/swift.go:257-266 | with Alive fixed and k-1 peers alive the search stops after at most count+1 checks at a ballot, not below the start, whose quorum is alive |
| `Ballots.AliveQuorumNeedsPeers` | swift/swift.go:257-266 | conversely a ballot whose quorum is alive needs k-1 alive peers, so otherwise no check ever succeeds |
| `MsgSet.MsgSet.Add` | replica/mset.go:45-87 | the replies and the leader's message become those of the specification, and the handler is called exactly when they are complete, with all replies in some order |
| `MsgSet.EveryCallIsCertified` | replica/mset.go:45-87 | whatever arrives in whatever order, a handler call with the leader's message has at least Size distinct repliers with the leader, all members, all accepted, and the whole quorum if it is a fixed set |
| `MsgSet.BackedLeaderIsHandled` | replica/mset.go:45-87 | once the leader's message has arrived and members whose messages it accepts number, with the leader, as many as the quorum, the handler has been called, in whatever order everything arrived |
| `MsgSet.CallsIff` | replica/mset.go:45-87 | with the leader's message in, an arrival calls the handler if and only if it is not ignored and the kept repliers and the leader number at least the quorum's size |
| `MsgSet.StandsIff` | replica/mset.go:45-73 | who is kept as a replier, read off the arrivals: whose last acceptable message before the leader's it accepts, or who sent one since that it accepts |
| `HashLogSpec.AppendUpdateCommute` | swift/dpath.go:60-143 | Append and Update of the same command commute |
| `HashLogSpec.UpdatesCommute` | swift/dpath.go:90-143 | Updates of different commands with different seqnums commute |
| `HashLogSpec.RunIsClosed` | swift/dpath.go:60-143 | after any interleaving the pending list, the waiting updates, the last sync and the hash have a closed form in the set of events and the order of Appends |
| `HashLogSpec.InterleavingsAgree` | swift/dpath.go:60-143 | two interleavings of the same events leave the same log if the unconfirmed commands were appended in the same order |
| `HashLogSpec.FollowerConverges` | swift/dpath.go:60-143 | a follower that appended the leader's commands and applied each of its updates once, in any interleaving, has nothing pending and the leader's hash |
| `HashLog.HashLog.Append` | swift/dpath.go:60-88 | the list stays acyclic, mutually linked and in bijection with nodes, the tail is missing only with at most one element, and the abstract log is that of the specification |
| `HashLog.HashLog.Update` | swift/dpath.go:90-143 | the same for Update |
| `HashLog.HashLog.Unlink` | swift/dpath.go:109-127 | a node is taken out of the doubly linked list; head, tail, links and map stay consistent |
| `HashLog.HashLog.Rehash` | swift/dpath.go:136-142 | the loop over the list computes the fold from syncedHash over the pending commands |
| `HashLogSpec.AppendCoherent` | swift/dpath.go:60-88 | the incremental hash is the fold over the pending commands, and no command is both pending and waiting |
| `SwiftDep.Contains` | swift/defs.go:179-186 | the loop decides membership |
| `SwiftDep.Equals` | swift/defs.go:196-224 | the loop over two local maps computes SameDep |
| `SwiftDep.EqualsAndDiff` | swift/defs.go:226-256 | answers as Equals does, and returns the first of the two sets |
| `SwiftDep.EqualsIsSound` | swift/defs.go:196-224 | for any two lists: a true answer means equal sets |
| `SwiftDep.EqualsDecides` | swift/defs.go:196-256 | for lists without duplicates: true exactly for equal sets, and the difference returned is dep1 minus dep2 |
| `SwiftDep.EqualsMissesDuplicates` | swift/defs.go:196-224 | with duplicates a false answer is possible for equal sets: a concrete pair of lists |
| `SwiftDep.SHashesEq` | swift/dpath.go:165-184 | the nested loops answer whether the lengths agree and every hash of the first list occurs in the second |
| `SwiftDep.QuorumBacksLeader` | swift/swift.go:665-684 | every handler call with the leader's ack has a quorum of distinct replicas with the leader, each ack without dependency or with the leader's as a set |
| `SwiftDep.AgreeingQuorumIsHandled` | swift/swift.go:665-684 | conversely, once the leader's ack and acks of members without a dependency or with an equal set number as many as the quorum, the handler has run with the leader's ack |
| `SwiftIndex.KeysDistinct` | swift/key.go:31-43 | the keys of a command are distinct, for a SCAN with wrap-around too |
| `SwiftIndex.Replica.GetDepAndHashes` | swift/swift.go:767-792 | index, dependency list, hash logs and hashes are those of the key-by-key specification |
| `SwiftIndex.WritesAreOrdered` | swift/key.go:101-137 | a command that touches a key reaches every earlier PUT on it through a chain of dependencies, although the index remembers only the last command and write |
| `SwiftIndex.DepIsExact` | swift/key.go:101-137 | over any sequence of proposals: a GET depends exactly on the last earlier PUT on its key, any other command on one key exactly on the last earlier command that touches it, and a SCAN exactly on the last earlier commands that touch its keys |
| `SwiftIndex.Replica.Deliver` | swift/swift.go:533-571 | a command is delivered exactly when its descriptor holds a proposal, it is new, it is committed or the replica leads and executes optimistically, and all dependencies in its descriptor are delivered; it is then applied to the store, and the client gets the result if Dreply is set |
| `SwiftIndex.DeliveryExtends` | swift/swift.go:549-556 | delivering a command whose dependencies are delivered keeps the order allowed and applies the command to the store of the order |
| `SwiftIndex.AnyAllowedOrderIsSequential` | swift/swift.go:549-556 | any order that the dependency check allows ends in the store of the proposal order of the same commands |
| `SwiftIndex.DeliveredSetsFixTheStore` | swift/swift.go:549-556 | replicas that delivered the same commands, in any allowed orders, hold equal stores |
| `SwiftIndex.SomethingCanBeDelivered` | swift/swift.go:549-556 | dependencies name earlier commands only, so among undelivered commands one is always deliverable |
| `SwiftIndex.DepDistinctIff` | swift/swift.go:767-792 | a computed dependency has no duplicates if and only if no two keys of the command name the same command, and never has any for a PUT or a GET |
| `SwiftIndex.SingleKeyDepsCompare` | swift/defs.go:196-224 | Equals decides on the dependencies that two replicas compute for PUTs and GETs, whatever proposals each has seen |
| `SwiftScans.ScanDepsMiscompared` | swift/defs.go:196-224 | two replicas that see two SCANs in different orders compute for a third dependencies that are equal as sets, and Equals denies it |
| `SwiftIndex.NilDepIsNotComputed` | swift/defs.go:188-194 | the stand-in for a nil dependency is recognised, and no computed dependency is mistaken for it, because none contains its own command |
| `SwiftHashes.Follower.HandlePropose` | swift/swift.go:274-283 | index, hash logs and buffered leader hashes become those of the specification |
| `SwiftHashes.Follower.HandleLeaderHash` | swift/swift.go:794-804 | a leader's hashes are applied to the logs of a known command and buffered otherwise |
| `SwiftHashes.Follower.UpdateLogs` | swift/swift.go:806-821 | every key's log gets the update with its own hash |
| `SwiftHashes.ArrivalOk` | swift/swift.go:274-296 | each arrival keeps every key's log in closed form and never meets hashes that do not fit the command's keys |
| `SwiftHashes.FollowerAgreesWithLeader` | swift/swift.go:277-296 | a follower that saw every proposal and every announcement of the leader once, in any interleaving, has nothing pending on any key and the leader's hash |
| `Wire.Int32RoundTrip` | epaxos/defs.go:294-298 | four little-endian bytes of an int32 read back as the same number, negatives included |
| `Wire.KeyRoundTrip` | state/state.go:263-276 | eight little-endian bytes of a key read back as the same signed number |
| `Wire.LengthRoundTrip` | epaxos/defs.go:316-319 | a zig-zag varint of any length below 2^63, followed by anything, reads back exactly |
| `Wire.Int32IsLittleEndian` | epaxos/defs.go:294-298 | the bytes of an int32 are its two's complement, the lowest first |
| `Wire.KeyIsLittleEndian` | state/state.go:263-276 | the same for the eight bytes of a key |
| `Wire.CommandLayout` | state/state.go:222-302 | where operation, key, length and value of a command stand |
| `Wire.MessageLayout` | epaxos/defs.go:1022-1076 | where the fixed fields of a message stand |
| `Wire.CommandRoundTrip` | state/state.go:222-302 | a command whose value is shorter than 65536 bytes reads back exactly |
| `Wire.RoundTrip` | epaxos/defs.go:1022-1119 | reading back a Commit or PreAccept followed by any suffix gives the message and exactly the suffix if and only if every value is shorter than 65536 bytes |
| `WireStream.Marshal` | epaxos/defs.go:1022-1076 | the loops write exactly the bytes of the format |
| `WireStream.Unmarshal` | epaxos/defs.go:1078-1119 | the loops read what the format says: a message, an error, or the panic of a negative length; errors of single commands are ignored and surface at the next read |
| `WireStream.UnmarshalCommand` | state/state.go:228-302 | a command is read, or the stream is left at its end |
| `WireStream.SendAndReceive` | epaxos/defs.go:290-387 | Unmarshal of what Marshal wrote, followed by any suffix, returns the message and leaves the suffix exactly when all values are short |

## Left out

- Failures of EPaxos: Prepare, TryPreAccept and their replies (epaxos/epaxos.go:1121-1506), nacks beyond counting them, and the re-proposal of no-op instances on commit, which only recovery produces.
- EPaxos ballots other than the initial one, PrepareReply, and short commits, which the failure-free protocol does not use.
- Sharing of slices and instances in EPaxos: instances and bookkeeping are values in a map, so an aliased Deps slice is not modelled; the code replaces the slices before it merges into them.
- Interleaving of the executor goroutine with the handlers inside one executor round; rounds and handlers are atomic steps here.
- The transconf block of strongconnect (epaxos/exec.go:83-91), whose continue affects only its own inner loop, and growing the stack slice.
- EpaxosExec.Exec.ExecuteCommands: models one round; the endless loop around it, the sleep between rounds and the recovery timers (problemInstance, timeout), which only start recovery, are not part of this model.
- EpaxosReplica.Replica.HandlePreAcceptReply: does not send the Prepare that follows a majority of nacks, nor the early reply to clients; the latter needs Dreply to be false, and replica/replica.go:105 sets it to true.
- EpaxosReplica.Replica.HandleAcceptReply: does not send the early reply to clients, for the same reason.
- EpaxosReplica.Replica.HandleCommit: does not propose again the commands of an instance that was committed as a no-op, which only recovery produces.
- EpaxosReplica.Replica.HandlePreAccept: the reply carries CommittedUpTo as it is at that moment; the code passes the slice itself (epaxos/epaxos.go:789-845), whose entries may have grown when a sender goroutine writes it out.
- sort.Sort: modelled by insertion; what is proved holds for any sorted permutation.
- Proposal batches in the protocol theorems: one command per instance, as EpaxosBatch shows that larger batches can lose a conflict; the handlers and the executor take any batch.
- SCAN in the EPaxos theorems about order: the index records only the start key of a SCAN, so replies to SCANs are not claimed equal; SCANs may occur and do not disturb the other claims.
- DepGraph.SameOrder: assumes that the pair is not tied on Seq and replica, because DepGraph.OrderForcedIffNoTies shows the claim is false otherwise.
- EpaxosTheorems.StateMachineReplication: assumes no tie between interfering instances, because EpaxosTieRun.ReplicasDiverge is a run in which the claim fails without it.
- Integers: ballots, sequence numbers and instance numbers are unbounded; keys wrap at 64 bits and the wire format has its widths.
- Fast Paxos with thresholds instead of one fixed quorum, for which the code itself promises nothing; growth of the instances slice (fastpaxos/fastpaxos.go:165-167 does not store it), the map here has no bound.
- FastPaxosReplica.Replica.Commit: does not send the replies to clients; the result of a command is what KVState.Execute returns for it.
- Fast Paxos message sets and SwiftPaxos key tables hold their contents as values instead of references to objects; MsgSet.MsgSet and HashLog.HashLog are the objects.
- Quorum files (replica/quorum.go:105-136, 159-219) and BallotAt.
- Quorum.Enumeration.Subsets: does not model the callback, which is empty in NewQuorumSet and collects ballots for quorum files.
- Quorum.Enumeration.Keep: does not model the callback either.
- fullKeyInfo and lightKeyInfo.remove (swift/key.go:15-99, 121-129): no caller in SwiftPaxos.
- SwiftIndex.Replica.Deliver: waking the successors of a delivered command and handing the finished descriptor to the history are not part of this model; the reply carries the command, its dependencies and the result, without the hashes.
- SwiftHashes.Follower.HandlePropose: creating and dispatching the command's descriptor, a matter of goroutines, is not part of this model.
- SwiftPaxos delivery across replicas, fast and slow paths, recovery and sync; only the local dependency check and the hash logs are modelled. GET replies are not covered by the confluence theorem.
- SHA-256: the hash function is a parameter of the hash logs; no property of it is used. Hash lists have one entry per key.
- The library calls for varints and byte order are functions in Wire; a command that cannot be read leaves the rest of the message unread, which is reported by the next read.
- Sockets, writers, sender goroutines, beacons, latency tables, configuration, master, clients, durable storage, statistics, and object pools.
- paxos, curp and n2paxos, which hold nothing harder than the parts above.
