# Pureflow, modelled and proved in Dafny

Pureflow is a dataflow engine: nodes joined by bounded edges, run cooperatively under a supervisor, with a
rules engine that routes packets. This project models the parts of it whose correctness is not visible from
one function, and proves what they promise over all inputs, all interleavings and all reachable states.

- **Graphs** (`Graph`, `Topology`, `Order`, `Kahn`, `CycleSearch`): reachability by breadth-first search, graph
  validation, Kahn's order and the depth-first cycle report, each with the exact condition of its answer.
- **The port protocol** (`Edges`, `Ports`, `Validation`, `Wiring`): one bounded channel per edge with
  reserve/commit/abort, fan-out that reserves every edge or none, fan-in that polls edges in declaration order,
  and the wiring of a workflow into channels. `Ports` updates channel objects in place.
- **Whole runs** (`Network`, `NetworkLaws`, `Deadlock`, `Flow`, `FlowLiveness`, `FlowDelivery`, `FlowAccounts`,
  `Executors`, `Capacity`, `Refinement`, `Simulation`): a state machine in which any node takes any step at any time,
  its inductive invariant, conservation, provenance and deadlock freedom; the liveness of workflows of batch
  executors and rule nodes under fair schedules, and what they then have computed; and the simulation by which wiring
  a workflow and using the in-place operations of `Ports` follows the machine through whole runs.
- **Supervision** (`Supervisor`, `Lifecycle`): collecting results, cancelling on the first error, the watchdog,
  and the lifecycle records the nodes write to their shared log.
- **Rules** (`Glob`, `Text`, `Identifiers`, `Conditions`, `ConditionLaws`, `Rules`, `RuleSets`, `Surfaces`,
  `Unreachable`, `ShadowNecessity`, `RuleContract`, `ProvenanceLeaves`, `RuleNode`, `RuleNodeLaws`, `RuleNodeSends`):
  evaluation under three strategies, the stable priority sort, and the static analyses with what they imply about
  evaluation.
- **Smaller state** (`Join`, `Sampling`): the symmetric streaming join and tiered metadata sampling.

Identifiers are strings, node outputs and sink verdicts are parameters, and a suspended future is a wait whose
next poll either completes or does not. The bounded channel is stated as the base of the model: a reservation
reports a dead receiver before a full queue, a dropped permit releases its slot, and an empty channel reports
disconnection only when its sender is gone. Where a Rust `BTreeSet` fixes an iteration order that no property
needs, the model picks an arbitrary element, so the results hold for every order.

## Where the code differs from what is said of it

- `topological_order` counts an in-degree per edge but keeps successors as a set, so two edges between the same
  two nodes make an acyclic graph fail as a cycle. `CycleSearch.TopologicalSort` states the exact condition and
  `CycleSearch.ParallelEdgesRejected` gives the smallest such graph.
- `detect_unreachable` treats every `Always` and repeated `FieldEq` rule as a shadower although a tagging rule
  does not stop evaluation (`ShadowNecessity.TaggingShadowIsUnsound`), and it reports ids, which a rule set may
  repeat (`ShadowNecessity.RepeatedIdIsUnsound`). `Unreachable.PruneIsExact` says packet by packet when deletion is
  safe, and `ShadowNecessity.DeletionIsSafeIff` says, for every rule set of the conditions the analysis looks at,
  exactly when it is safe on every packet. A shadow need not test the same value: a terminal test for 1.0 shadows one
  for 1, and a test for a float that is not finite never fires.
- Rule validation accepts a `SourceNode` leaf for any node with a path to the host and an `ArrivedOnPort` leaf for
  any input of the host. In a contract-checked run the first holds only for a direct upstream node, and the second,
  on forwarded packets, only where the sender's output has the same name (`ProvenanceLeaves`).
- A field holding `null` satisfies both `FieldExists` and `FieldAbsent` (`Conditions.ExistsAndAbsent`).
- A rule node's documentation promises that the packet in flight is finished regardless of cancellation. The
  send takes the token and looks at it first, so a received and recorded packet may go unsent:
  `RuleNodeLaws.CancelledPacketGoesUnsent` is such a run, and `RuleNodeLaws.DrainedIffActive` says that the promise
  is kept exactly when the token is still active at the poll that finds the port open.
- `forward_packet` writes the sender's own output endpoint as the packet's target, so a downstream
  `ArrivedOnPort` sees the upstream output port (`RuleNodeLaws.ArrivalPortIsUpstreamOutput`).
- A watchdog that fires after a node error writes a second workflow-failed record; the supervisor's invariant
  counts it.

## Model

| member | source | states |
|---|---|---|
| `Graph.Expand` | crates/pureflow-contract/src/rules.rs:377-392 | scanning one node's edges meets the goal iff an edge leads there, and otherwise enqueues exactly its unseen successors |
| `Graph.HasPath` | crates/pureflow-contract/src/rules.rs:373-395 | on any graph, cyclic or not, terminates and answers true iff a walk of at least one edge exists |
| `Topology.RejectDuplicateNodes` | crates/pureflow-workflow/src/lib.rs:690-702 | accepts iff node ids are distinct, and otherwise names an id declared twice |
| `Topology.ValidateEndpoint` | crates/pureflow-workflow/src/lib.rs:540-572 | accepts iff the endpoint is a declared port of that direction; tells unknown nodes from unknown ports |
| `Topology.ValidateEdge` | crates/pureflow-workflow/src/lib.rs:500-512 | accepts iff both ends are declared; the error is the source's before the target's |
| `Topology.FromGraph` | crates/pureflow-workflow/src/lib.rs:465-538 | succeeds iff ids are unique and all edges declared; its tables are the successor sets and per-edge in-degrees; an error is the first defect |
| `Topology.DegreeBoundsPredecessors` | crates/pureflow-workflow/src/lib.rs:514-534 | in-degree equals the number of distinct predecessors iff no two parallel edges enter the node |
| `Kahn.Discount` | crates/pureflow-workflow/src/lib.rs:592-600 | lowers each child's count by one and makes ready exactly those that reach zero |
| `Kahn.ReadyIsGrounded` | crates/pureflow-workflow/src/lib.rs:584-600 | a node whose count is zero has every predecessor placed and no parallel edges, and its counters never underflow |
| `Kahn.SourcelessSetIsCyclic` | crates/pureflow-workflow/src/lib.rs:604-614 | a non-empty node set in which every node has a predecessor contains a cycle |
| `Kahn.StuckMeansDefect` | crates/pureflow-workflow/src/lib.rs:604-614 | nothing ready with nodes left over means a cycle or parallel edges |
| `Kahn.GroundedIsAcyclic` | crates/pureflow-workflow/src/lib.rs:574-606 | a complete list with predecessors first is a topological order and rules out cycles |
| `Kahn.AcyclicHasOrder` | crates/pureflow-workflow/src/lib.rs:574-606 | every acyclic graph has a topological order, with parallel edges as well |
| `Order.PrecedesIff` | crates/pureflow-workflow/src/lib.rs:584-584 | identifiers are ordered as in a dictionary: at the first difference the smaller character or the shorter string comes first |
| `Order.Least` | crates/pureflow-workflow/src/lib.rs:584-584 | the element taken first from a sorted set precedes every other |
| `Kahn.GreedyIsLeast` | crates/pureflow-workflow/src/lib.rs:574-606 | an order that always takes the least node that may come next comes before every other topological order |
| `Kahn.Sort` | crates/pureflow-workflow/src/lib.rs:574-606 | the list is complete iff the graph has neither cycles nor parallel edges, and is then the lexicographically least topological order |
| `CycleSearch.CycleFromStack` | crates/pureflow-workflow/src/lib.rs:666-671 | finds the first position of the child on the stack |
| `CycleSearch.Dfs` | crates/pureflow-workflow/src/lib.rs:624-664 | a report is a real closed walk; without one, every finished node precedes its remaining successors |
| `CycleSearch.SearchAll` | crates/pureflow-workflow/src/lib.rs:673-686 | without a report all remaining nodes are finished in an order that follows the edges |
| `CycleSearch.FindCycle` | crates/pureflow-workflow/src/lib.rs:617-687 | a closed walk whenever the graph is cyclic, otherwise the unplaced nodes once each in ascending order |
| `CycleSearch.TopologicalSort` | crates/pureflow-workflow/src/lib.rs:359-370 | Ok iff ids unique, edges declared, no cycle and no parallel edges; Ok is the one least topological order, so the result is deterministic; a reported cycle in a cyclic graph is a real one |
| `CycleSearch.ParallelEdgesRejected` | crates/pureflow-workflow/src/lib.rs:514-534 | a valid acyclic two-node workflow that falls to the parallel-edge condition |
| `Edges.PortOutcomeIsFirstRefusal` | crates/pureflow-core/src/ports.rs:368-455 | a port grants iff all its edges do, and otherwise reports the first refusal in edge order |
| `Edges.PollFromMeaning` | crates/pureflow-core/src/ports.rs:287-311 | a port poll is ready at the lowest non-empty edge, closed iff every edge is empty without a sender |
| `Edges.PollAnyMeaning` | crates/pureflow-core/src/ports.rs:855-906 | an all-ports poll is ready at the first ready port, closed iff all ports are closed |
| `Edges.StepsKeepSound` | crates/pureflow-core/src/ports.rs:527-581 | reserving, aborting, committing and receiving keep the bound and received ++ queued = committed |
| `Ports.Channel.constructor` | crates/pureflow-core/src/ports.rs:585-597 | a new edge channel is empty, open at both ends and has the given capacity |
| `Ports.Channel.TryReserve` | crates/pureflow-core/src/ports.rs:368-455 | disconnected first, then full, else exactly one slot taken |
| `Ports.Channel.Abort` | crates/pureflow-core/src/ports.rs:577-581 | gives one slot back and nothing else |
| `Ports.Channel.Send` | crates/pureflow-core/src/ports.rs:527-575 | turns a slot into a queued packet, or only gives it back when the receiver is gone |
| `Ports.Channel.TryRecv` | crates/pureflow-core/src/ports.rs:217-242 | takes the head of the queue iff there is one |
| `Ports.ReserveEach` | crates/pureflow-core/src/ports.rs:368-455 | stops at the first refusal with exactly the earlier edges reserved |
| `Ports.TryReserve` | crates/pureflow-core/src/ports.rs:368-455 | all edges reserved or every edge as it was, with the first refusal as the error |
| `Ports.AbortAll` | crates/pureflow-core/src/ports.rs:577-581 | gives back the slot on every edge of the permit |
| `Ports.DropSenders` | crates/pureflow-engine/src/lib.rs:1127-1140 | a node that ends takes the senders of an output port and the permits it still held with it, on every edge |
| `Ports.DropReceivers` | crates/pureflow-engine/src/lib.rs:1127-1140 | a node that ends takes the receivers of an input port with it, on every edge |
| `Ports.SendPermit` | crates/pureflow-core/src/ports.rs:527-575 | commits the same packet on every edge, or on none and all slots returned when the validator rejects it |
| `Ports.PollReserve` | crates/pureflow-core/src/ports.rs:471-491 | cancellation first; a permit, a disconnection, or suspension holding no slot iff the port is full; the verdict is the one `RuleNode.Awaited` folds |
| `Ports.PollInput` | crates/pureflow-core/src/ports.rs:287-311 | takes the head of the lowest non-empty edge and changes no other; closed iff all edges are drained |
| `Ports.PollNth` | crates/pureflow-core/src/ports.rs:868-899 | polling one declared port changes at most that port's first non-empty edge |
| `Ports.PollEach` | crates/pureflow-core/src/ports.rs:867-904 | stops at the first port with a packet; all counted closed iff all are |
| `Ports.PollRecvAny` | crates/pureflow-core/src/ports.rs:835-909 | no ports means end of input, then cancellation, then the first ready port's packet, end iff all closed |
| `Validation.Validate` | crates/pureflow-engine/src/lib.rs:811-864 | accepts exactly packets on a contracted port that name this run and this node and port as source, whatever their target |
| `Wiring.IncidentMeaning` | crates/pureflow-engine/src/lib.rs:1765-1787 | a port's edges are those declared at it, each once, in declaration order |
| `Wiring.BuildPortWiring` | crates/pureflow-engine/src/lib.rs:1765-1787 | one fresh channel per edge with exactly the slots the edge declares, or one by default, handed to both of its nodes in order |
| `Wiring.FromHandles` | crates/pureflow-core/src/ports.rs:618-648 | one handle per declared port holding all its channels in order, none for a port without edges |
| `Wiring.MergedHandles` | crates/pureflow-core/src/ports.rs:970-1001 | the merged channels of a port are those of its edges in declaration order |
| `Wiring.WirePorts` | crates/pureflow-engine/src/lib.rs:1102-1109 | a node's declared ports carry exactly their edges' channels |
| `Wiring.WireNodes` | crates/pureflow-engine/src/lib.rs:1096-1109 | so do the ports of every node, on both sides |
| `Wiring.WireWorkflow` | crates/pureflow-engine/src/lib.rs:1092-1109 | for any valid workflow: distinct fresh channels of the declared capacities, and every declared port matched to its edges |
| `Wiring.EveryEdgeWiredOnce` | crates/pureflow-engine/src/lib.rs:1765-1787 | each edge sits behind exactly its own declared port on each side, once |
| `Network.ReserveKeepsInv` | crates/pureflow-core/src/ports.rs:368-455 | an all-or-none reservation keeps the run invariant |
| `Network.CommitKeepsInv` | crates/pureflow-core/src/ports.rs:527-575 | a commit, accepted or rejected, keeps the run invariant |
| `Network.AbortKeepsInv` | crates/pureflow-core/src/ports.rs:577-581 | an abort keeps the run invariant |
| `Network.ReceiveKeepsInv` | crates/pureflow-core/src/ports.rs:217-311 | a receive keeps the run invariant |
| `Network.FinishKeepsInv` | crates/pureflow-engine/src/lib.rs:1127-1140 | a node that ends drops its permits, senders and receivers and keeps the run invariant |
| `Network.StepKeepsInv` | crates/pureflow-engine/src/lib.rs:1095-1140 | every step of every node keeps the run invariant |
| `Network.ReachableInv` | crates/pureflow-engine/src/lib.rs:1095-1140 | the invariant holds after any interleaving: bound, conservation, one history per port, slots = permits, liveness |
| `Capacity.GrantsUntilFull` | crates/pureflow-workflow/src/lib.rs:195-200 | a freshly wired port grants exactly as many reservations as its narrowest edge declares slots, one if none are declared, and is full from then on |
| `NetworkLaws.FanOutAgrees` | crates/pureflow-core/src/ports.rs:368-455 | all live edges of an output port have carried the same packets, dead ones a prefix; a port without permits holds no slot |
| `NetworkLaws.EdgeConservation` | crates/pureflow-core/src/ports.rs:217-311 | received ++ queued is what was committed, and on a live edge what its port sent |
| `NetworkLaws.ClosedMeansComplete` | crates/pureflow-core/src/ports.rs:835-909 | end of input reaches a node only when every upstream is finished and everything sent was received |
| `NetworkLaws.ReceiveTakesFirst` | crates/pureflow-core/src/ports.rs:217-242 | a receive takes the head of the lowest-indexed non-empty edge and touches no other |
| `NetworkLaws.ProvenanceIntegrity` | crates/pureflow-engine/src/lib.rs:811-864 | in a contract-checked run every packet queued or received names the run and its edge's true source, whatever nodes do |
| `NetworkLaws.DisconnectedPortQuiesces` | crates/pureflow-core/src/ports.rs:457-469 | once a receiver of a port is gone, only permits already granted can still be sent through the port |
| `Refinement.ReserveStep` | crates/pureflow-core/src/ports.rs:368-455 | the in-place reservation on wired channels is the reserve step of the state machine |
| `Refinement.CommitStep` | crates/pureflow-core/src/ports.rs:527-575 | the in-place send is the commit step, accepted iff the validator accepts |
| `Refinement.AbortStep` | crates/pureflow-core/src/ports.rs:577-581 | the in-place abort is the abort step |
| `Refinement.ReceiveStep` | crates/pureflow-core/src/ports.rs:287-311 | the in-place poll is the receive step |
| `Refinement.DropOutput` | crates/pureflow-engine/src/lib.rs:1127-1140 | dropping an output port in place detaches exactly its edges |
| `Refinement.DropInput` | crates/pureflow-engine/src/lib.rs:1127-1140 | dropping an input port in place detaches exactly its edges |
| `Simulation.WiredHolds` | crates/pureflow-engine/src/lib.rs:1765-1787 | freshly wired channels hold the initial state |
| `Simulation.WiredHandles` | crates/pureflow-engine/src/lib.rs:1102-1109 | the handles each node is given are those the steps work on |
| `Simulation.GivenHandles` | crates/pureflow-engine/src/lib.rs:1102-1109 | the handles given to a node are exactly those of its declared ports |
| `Simulation.GivenHandle` | crates/pureflow-core/src/ports.rs:1121-1132 | the handle a node finds for a port, declared or not, is the one for that port's edges |
| `Simulation.ReceiveAnyStep` | crates/pureflow-core/src/ports.rs:835-909 | one poll of `recv_any` on wired channels is the receive-any step |
| `Simulation.FinishStep` | crates/pureflow-engine/src/lib.rs:1127-1140 | dropping all the handles given to a node is the finish step |
| `Simulation.Act` | crates/pureflow-engine/src/lib.rs:1095-1140 | the step of an unfinished node, taken on the handles it was given, is that step of the state machine |
| `Simulation.Take` | crates/pureflow-engine/src/lib.rs:1095-1140 | so is any step of any node |
| `Simulation.Execute` | crates/pureflow-engine/src/lib.rs:1092-1140 | wiring a valid workflow and taking any steps on the handles the wiring returned leaves the channels in the state the machine reaches: a simulation of whole runs |
| `Deadlock.BlockedSender` | crates/pureflow-core/src/ports.rs:471-491 | a suspended send faces an edge with a queued packet and an unfinished receiver |
| `Deadlock.BlockedReceiver` | crates/pureflow-core/src/ports.rs:855-906 | a suspended `recv_any` has an edge whose upstream node is unfinished |
| `Deadlock.OnlyInput` | crates/pureflow-rules/src/node.rs:124-128 | on a node with one input, `recv` on it and `recv_any` complete together |
| `Deadlock.CompletesIff` | crates/pureflow-core/src/ports.rs:471-491 | a send completes at the poll of `reserve` that does not yield, and cancellation completes every receive |
| `Deadlock.NoGlobalDeadlock` | crates/pureflow-engine/src/lib.rs:640-680 | in every reachable state of an acyclic run whose nodes wait in `recv_any`, in `recv` on their only input (as rule nodes do) or in `send`, some unfinished node's next poll completes |
| `Deadlock.HeldPermitDeadlocks` | crates/pureflow-core/src/ports.rs:471-491 | in a valid acyclic run, holding a permit while waiting can block every node |
| `Deadlock.PortwiseReceiveDeadlocks` | crates/pureflow-core/src/ports.rs:244-285 | in a valid acyclic run without permits, waiting on one of several ports can block every node |
| `Deadlock.CycleDeadlocks` | crates/pureflow-engine/src/lib.rs:1728-1747 | a feedback loop can block from the start |
| `Flow.SomeoneIsProductive` | crates/pureflow-engine/src/lib.rs:640-685 | in every state of an acyclic run of message-driven nodes with an unfinished one, some node's next poll completes |
| `FlowLiveness.PollMakesProgress` | crates/pureflow-engine/src/lib.rs:640-685 | a completing poll strictly lowers its node's remaining work: nearer its end, or fewer packets to receive, or fewer to send |
| `FlowLiveness.OthersDoNotAdd` | crates/pureflow-engine/src/lib.rs:640-685 | only a node's direct upstream can add to its work |
| `Flow.PollKeeps` | crates/pureflow-engine/src/lib.rs:1095-1140 | every poll keeps the run invariant and leaves no permit outstanding, failures and rejections included |
| `FlowLiveness.RunsFinish` | crates/pureflow-engine/src/lib.rs:1095-1140 | liveness: every fair schedule of an acyclic workflow of nodes that receive, respond and close finishes all of them, whatever they send and however they fail |
| `Executors.ForwardedIsTheTail` | crates/pureflow-rules/src/node.rs:274-333 | the response modelled for a rule node is what its own loop sends where the send goes through, and fails where that fails |
| `Executors.MixedRunsFinish` | crates/pureflow-engine/src/lib.rs:640-685 | every fair run of an acyclic workflow of batch executors and rule nodes finishes all its nodes |
| `Executors.ReadyStationsAreGood` | crates/pureflow-rules/src/node.rs:274-333 | a validated rule node that never halts and whose names are short always sends, and only accepted packets on declared ports |
| `Executors.MixedRunsDeliver` | crates/pureflow-engine/src/lib.rs:640-685 | with such rule nodes, and batch executors that never fail, every fair run ends uncancelled with everything sent received |
| `Executors.MixedRunsCompute` | crates/pureflow-engine/src/lib.rs:640-685 | in such a run each batch node's ports carry, in order, exactly what its executor returned for all that was sent to it, and each rule node's exactly the payloads its rules decided for them |
| `FlowDelivery.NeverDisconnected` | crates/pureflow-core/src/ports.rs:457-469 | while nothing fails no node's send finds a receiver gone |
| `FlowDelivery.RunsDeliver` | crates/pureflow-engine/src/lib.rs:1095-1140 | with nodes that never fail, every fair run ends uncancelled with every edge drained and everything sent received |
| `FlowAccounts.AccountsHold` | crates/pureflow-engine/src/lib.rs:640-685 | at every moment of every run, until a node is stopped: what it sent through a port, then what it still has to send, is exactly what its responses ask for, in order, and what it was given is exactly what its edges delivered; it never sends more; and a node that ends early has requested cancellation |
| `FlowAccounts.RunsSettle` | crates/pureflow-engine/src/lib.rs:640-685 | with nodes that never fail, every fair run ends with every node given all that was sent to it and every port having carried exactly what was owed |
| `FlowAccounts.CancelledSendsNothing` | crates/pureflow-core/src/ports.rs:479-483 | once cancellation is requested nothing more is sent |
| `FlowAccounts.CancelledEndsNode` | crates/pureflow-rules/src/node.rs:188-193 | and a node ends at its next receive, send, or end of a packet |
| `FlowDelivery.FlowIsARun` | crates/pureflow-engine/src/lib.rs:1095-1140 | every state of such a run is a reachable state of the network, so all its laws hold there |
| `FlowDelivery.FlowProvenance` | crates/pureflow-engine/src/lib.rs:811-864 | a contract-checked run only ever carries packets that name their true source |
| `Supervisor.RunSummary.RecordSuccess` | crates/pureflow-engine/src/lib.rs:474-476 | counts one more completed node and changes nothing else |
| `Supervisor.RunSummary.RecordError` | crates/pureflow-engine/src/lib.rs:478-495 | counts the error by kind; only the first sets the terminal state and is kept |
| `Supervisor.RunSummary.RecordWorkflowError` | crates/pureflow-engine/src/lib.rs:497-508 | counts an error without a node; only a first one is kept |
| `Supervisor.RunSummary.RecordDiagnostic` | crates/pureflow-engine/src/lib.rs:510-513 | stores the watchdog's diagnostic |
| `Supervisor.CancellationSignal.RequestCancellation` | crates/pureflow-core/src/context.rs:181-194 | the first request wins and is kept |
| `Supervisor.RecordNodeRunResult` | crates/pureflow-engine/src/lib.rs:1638-1672 | records a result as specified: record, then cancellation, then the count, and a refusing sink stops before the request |
| `Supervisor.CollectSummary` | crates/pureflow-engine/src/lib.rs:1581-1636 | the loop with or without watchdog computes the specified fold over observed events |
| `Supervisor.EventKeepsConsistent` | crates/pureflow-engine/src/lib.rs:1596-1693 | each observed event keeps the supervisor's invariant, whatever the sink does |
| `Supervisor.EventKeepsRecords` | crates/pureflow-engine/src/lib.rs:1656-1693 | each observed event keeps the records telling what they should |
| `Supervisor.SupervisorInvariant` | crates/pureflow-engine/src/lib.rs:1581-1693 | counts add up to the scheduled nodes, errors = failed + cancelled + watchdog, terminal state and cancellation mirror the first error, the diagnostic's scheduled, pending, completed, failed and cancelled are the summary's of those names with work pending and its edges and timeout the run's, and the records are the first node error's, without a diagnostic, and the watchdog's, with it |
| `Supervisor.FirstErrorIsKept` | crates/pureflow-engine/src/lib.rs:478-508 | nothing later replaces the first error or the request made for it |
| `Supervisor.SummaryIsTally` | crates/pureflow-engine/src/lib.rs:1581-1594 | the counts are the tallies of the results and the first error is the earliest one |
| `Lifecycle.NodeLog.ObserveLifecycle` | crates/pureflow-runtime/src/lib.rs:299-315 | the sink is asked first and the hook only if it accepts |
| `Lifecycle.NodeLog.Begin` | crates/pureflow-runtime/src/lib.rs:254-259 | the start record is written under the node's name, and a refusal ends the node |
| `Lifecycle.NodeLog.End` | crates/pureflow-runtime/src/lib.rs:261-287 | the error record, then the terminal one of the result's kind; a node error is the result whatever is refused |
| `Lifecycle.RunNodeWithObservers` | crates/pureflow-runtime/src/lib.rs:234-288 | a node error is never masked by a failing observer, and success needs every observation |
| `Lifecycle.TraceShape` | crates/pureflow-runtime/src/lib.rs:234-315 | whatever is refused, start comes first and once, and at most one terminal transition ends the trace, of the result's kind |
| `Lifecycle.AcceptedEntries` | crates/pureflow-runtime/src/lib.rs:234-288 | with nothing refused, what `Begin` and `End` write is what the shared log gets |
| `Lifecycle.LogAgreesWithSummary` | crates/pureflow-engine/src/lib.rs:1581-1654 | however nodes start and end in between, after every step each node's own records on the shared log are a prefix of its full trace, complete and of the right kind once its result is collected, and the log counts the same started, completed, failed and cancelled nodes as the summary |
| `Glob.Symbols` | crates/pureflow-rules/src/condition.rs:119-136 | `*` matches everything, `?` any one character, another character itself, and the empty pattern the empty value |
| `Glob.Compositional` | crates/pureflow-rules/src/condition.rs:113-136 | `p ++ q` matches a value iff some split of it matches `p` and `q` |
| `Glob.ReversalInvariant` | crates/pureflow-rules/src/condition.rs:119-136 | matching is invariant under reversing pattern and value |
| `Text.SplitJoin` | crates/pureflow-engine/examples/stream_join_window.rs:477-485 | splitting undoes joining fields without the separator |
| `Text.JoinSplit` | crates/pureflow-engine/examples/stream_join_window.rs:477-485 | joining undoes splitting, and no field holds the separator |
| `Conditions.Resolve` | crates/pureflow-rules/src/condition.rs:65-72 | the loop walks the object fields named by the dot-separated segments |
| `Conditions.ExistsAndAbsent` | crates/pureflow-rules/src/eval.rs:250-253 | the two conditions cover every packet and overlap exactly on a null field |
| `Conditions.RoundingError` | crates/pureflow-rules/src/eval.rs:321-332 | an integer compares as the nearest double: within half the gap between doubles, and exactly up to 53 bits |
| `ConditionLaws.DoublesKeepOrder` | crates/pureflow-rules/src/eval.rs:321-332 | converting integers to doubles is odd and keeps their order |
| `ConditionLaws.Trichotomy` | crates/pureflow-rules/src/eval.rs:236-247 | of comparable numbers exactly one of less, greater and both-at-most-and-at-least holds, at-least is not-less and at-most is not-greater; of anything else none of the four |
| `ConditionLaws.IntegersCompare` | crates/pureflow-rules/src/eval.rs:236-241 | integers of up to 53 bits are greater and less as integers are |
| `ConditionLaws.LargeIntegersCompare` | crates/pureflow-rules/src/eval.rs:236-241 | larger ones compare so too unless they round to one double |
| `ConditionLaws.FloatsCompare` | crates/pureflow-rules/src/eval.rs:236-241 | finite floats compare and equal as real numbers |
| `ConditionLaws.InfinitiesBound` | crates/pureflow-rules/src/eval.rs:236-241 | every number lies strictly between the infinities |
| `ConditionLaws.EqualsOneOfAKind` | crates/pureflow-rules/src/eval.rs:308-319 | a JSON value equals at most one scalar of each kind |
| `ConditionLaws.EqualsItsKind` | crates/pureflow-rules/src/eval.rs:308-319 | and that is a scalar of its own kind with its own value |
| `ConditionLaws.ScalarsEqualThemselves` | crates/pureflow-rules/src/eval.rs:334-344 | tags and metadata equal exactly themselves, NaN nothing |
| `ConditionLaws.EqualOrNot` | crates/pureflow-rules/src/eval.rs:230-235 | a field that exists equals a value or differs from it, never both; one that does not exist does neither |
| `ConditionLaws.InIsSomeEqual` | crates/pureflow-rules/src/eval.rs:248-249 | `FieldIn` holds iff `FieldEq` holds for one of its values |
| `ConditionLaws.MatchIsEquality` | crates/pureflow-rules/src/eval.rs:254-258 | a pattern without wildcards tests for equality, and `*` for being a string |
| `ConditionLaws.BytesHaveNoFields` | crates/pureflow-rules/src/eval.rs:296-306 | of bytes only the absence of fields holds |
| `ConditionLaws.TagsComplement` | crates/pureflow-rules/src/eval.rs:259-264 | a tag is absent iff it does not exist, and equals a value iff it exists with that value |
| `ConditionLaws.MetadataEquals` | crates/pureflow-rules/src/eval.rs:274-277 | so does execution metadata |
| `ConditionLaws.HopsComplement` | crates/pureflow-rules/src/eval.rs:269-270 | the two hop tests are complements, and together single out the hop count |
| `ConditionLaws.OnlyItsOwn` | crates/pureflow-rules/src/eval.rs:267-273 | only the packet's own workflow, source node and arrival port satisfy the tests for them |
| `ConditionLaws.DeMorgan` | crates/pureflow-rules/src/eval.rs:280-286 | a conjunction fails iff some negation holds, a disjunction iff all do |
| `ConditionLaws.EmptyCombinations` | crates/pureflow-rules/src/eval.rs:280-285 | the empty conjunction holds and the empty disjunction does not |
| `ConditionLaws.NotIsOpposite` | crates/pureflow-rules/src/eval.rs:286-290 | `Not` is the opposite; `Always` holds and `Never` does not |
| `Conditions.NeighboursMeet` | crates/pureflow-rules/src/eval.rs:308-319 | 2^53 and 2^53 + 1 are one number to a float test |
| `Rules.EvaluateFirstMatch` | crates/pureflow-rules/src/eval.rs:59-102 | tags up to the first matching terminal rule, that rule's action, or the default |
| `Rules.EvaluateAllMatches` | crates/pureflow-rules/src/eval.rs:104-137 | all matching tags and the default action |
| `Rules.EvaluateScore` | crates/pureflow-rules/src/eval.rs:139-189 | all matching tags and the first matching terminal rule's action |
| `Rules.Evaluate` | crates/pureflow-rules/src/eval.rs:46-57 | the dispatched loop computes the decision the strategy stands for; `ConditionLaws` says when the rules fire |
| `Rules.TracesTell` | crates/pureflow-rules/src/eval.rs:202-209 | traces hold one entry per rule, in order: its id, whether it fired, and its surface |
| `Rules.DecisionTraces` | crates/pureflow-rules/src/eval.rs:59-189 | a decision traces every rule looked at, FirstMatch up to and including the one that stopped it, and nothing unless traces are wanted |
| `RuleSets.NewRuleSet` | crates/pureflow-rules/src/rule.rs:94-123 | Ok iff the id is not blank and AllMatches has only tags; the error names the first terminal rule; the rules are stably sorted |
| `RuleSets.SortIsStable` | crates/pureflow-rules/src/rule.rs:94-123 | the sort lists every position once, by priority then by original position |
| `RuleSets.SortPermutes` | crates/pureflow-rules/src/rule.rs:94-123 | the sorted rules are a permutation of the given ones |
| `RuleSets.FirstMatchPicksLeast` | crates/pureflow-rules/src/eval.rs:59-102 | the decision's action and matched rule over sorted rules are those of the matching terminal rule of least (priority, position) in the unsorted input, and the default iff no rule stops |
| `RuleSets.OrderIndependent` | crates/pureflow-rules/src/rule.rs:94-123 | with distinct priorities the decision does not depend on the order given |
| `RuleSets.FirstMatchAgreesWithScore` | crates/pureflow-rules/src/eval.rs:139-189 | FirstMatch and Score agree on action and rule, and FirstMatch's tags are a prefix of Score's |
| `RuleSets.TagOnlyStrategiesCoincide` | crates/pureflow-rules/src/eval.rs:46-57 | on tag-only sets all strategies give the same decision |
| `RuleSets.TagsTell` | crates/pureflow-rules/src/eval.rs:191-200 | a rule that fires adds the key and value of its tag, any other nothing, and tags add up in rule order |
| `Surfaces.CollectSurfacesInner` | crates/pureflow-introspection/src/rules.rs:162-181 | raises exactly the flags of the surfaces some leaf uses, at any depth |
| `Surfaces.CollectSurfaces` | crates/pureflow-introspection/src/rules.rs:156-160 | the summary is exactly the set of surfaces used |
| `Surfaces.NonInterference` | crates/pureflow-rules/src/eval.rs:223-292 | two packets alike on the surfaces used evaluate alike |
| `Surfaces.ConstantOnlyIsConstant` | crates/pureflow-introspection/src/rules.rs:86-92 | a condition whose summary is constant-only has one value for all packets |
| `Surfaces.ConstantsReportNoSurface` | crates/pureflow-introspection/src/rules.rs:156-181 | a condition of constants reports no surface, and a single constant is constant-only |
| `Surfaces.DecisionNonInterference` | crates/pureflow-introspection/src/rules.rs:125-154 | changing surfaces no rule uses leaves the whole decision unchanged under every strategy |
| `Unreachable.DetectNever` | crates/pureflow-introspection/src/rules.rs:216-226 | reports every `Never` rule, and only with cause |
| `Unreachable.DetectShadowed` | crates/pureflow-introspection/src/rules.rs:228-246 | reports every rule other than `Never` behind the first `Always` rule, and only with cause |
| `Unreachable.SameFieldEqIff` | crates/pureflow-introspection/src/rules.rs:248-263 | two tests count as the same iff they are equal and not for NaN |
| `Unreachable.DetectSubsumed` | crates/pureflow-introspection/src/rules.rs:248-275 | reports every rule whose `FieldEq` test an earlier rule makes, and only with cause |
| `Unreachable.DetectUnreachable` | crates/pureflow-introspection/src/rules.rs:216-278 | reports exactly the ids of the rules caught, each for a reason that holds |
| `Unreachable.PruneIsExact` | crates/pureflow-rules/src/eval.rs:59-189 | deleting any rules keeps a packet's action, rule and tags iff no deleted rule contributes to its decision |
| `Unreachable.DeadRuleElimination` | crates/pureflow-introspection/src/rules.rs:216-278 | with distinct ids and terminal shadowers, deleting all reported rules changes no decision under any strategy |
| `ShadowNecessity.WitnessIsExact` | crates/pureflow-rules/src/eval.rs:229-232 | a packet with just the field a possible condition asks for satisfies exactly the tests that condition implies |
| `ShadowNecessity.UnshadowedDecides` | crates/pureflow-introspection/src/rules.rs:216-278 | a rule with a reported id that is not passed over decides its witness packet, and deleting it changes that decision |
| `ShadowNecessity.DeletionIsSafeIff` | crates/pureflow-introspection/src/rules.rs:216-278 | for sets of `Always`, `Never` and `FieldEq`, under any strategy and with ids repeated or not: deleting all rules with a reported id changes no decision on any packet iff each of them that can fire is passed over, behind an earlier terminal rule that fires whenever it does and without a tag the strategy would still collect |
| `ShadowNecessity.ConstantSetsNeedStoppingShadows` | crates/pureflow-introspection/src/rules.rs:228-246 | for constant conditions one packet tells: its decision survives deletion iff that condition holds |
| `ShadowNecessity.TaggingShadowIsUnsound` | crates/pureflow-introspection/src/rules.rs:228-246 | a tagging `Always` rule and the reported rule whose deletion changes the action |
| `ShadowNecessity.RepeatedIdIsUnsound` | crates/pureflow-introspection/src/rules.rs:216-226 | two rules with one id, the first of them `Never`: deleting the reported id takes the live rule too and changes every decision |
| `RuleContract.CollectConditionRefs` | crates/pureflow-contract/src/rules.rs:346-360 | gathers exactly the source nodes and arrival ports of all leaves at any depth |
| `RuleContract.ValidateAction` | crates/pureflow-contract/src/rules.rs:304-337 | empty iff the action's port is an output of the host |
| `RuleContract.ValidateSources` | crates/pureflow-contract/src/rules.rs:272-287 | empty iff every named node exists and reaches the host |
| `RuleContract.ValidatePorts` | crates/pureflow-contract/src/rules.rs:289-298 | empty iff every named arrival port is an input of the host |
| `RuleContract.ValidateCondition` | crates/pureflow-contract/src/rules.rs:268-299 | empty iff the condition's provenance leaves are legal |
| `RuleContract.ValidateActions` | crates/pureflow-contract/src/rules.rs:242-264 | empty iff every rule's action and the default are legal |
| `RuleContract.ValidateConditions` | crates/pureflow-contract/src/rules.rs:266-299 | empty iff every rule's condition is legal |
| `RuleContract.RuleSetViolations` | crates/pureflow-contract/src/rules.rs:216-302 | empty iff the host exists and every action and leaf is legal; every entry is a real defect |
| `RuleContract.ActionLegalIff` | crates/pureflow-contract/src/rules.rs:304-337 | a route is legal iff its port is an output of the host, a dead letter iff `dead_letter` is, any other action always |
| `RuleContract.LeavesNest` | crates/pureflow-contract/src/rules.rs:346-360 | a provenance leaf counts wherever it is nested |
| `RuleContract.LeafLegalIff` | crates/pureflow-contract/src/rules.rs:272-298 | a source node must exist and reach the host, an arrival port must be an input of it |
| `RuleContract.ValidatedNeverSendsUnknown` | crates/pureflow-contract/src/rules.rs:216-302 | no decision of a validated set sends to an undeclared port |
| `ProvenanceLeaves.SourceNodeIsTheSender` | crates/pureflow-rules/src/eval.rs:266-270 | in a contract-checked run `SourceNode` holds of a packet exactly for the node at the other end of its edge |
| `ProvenanceLeaves.IndirectSourceNeverHolds` | crates/pureflow-contract/src/rules.rs:368-395 | a leaf naming a node that reaches the host only through others passes validation and never holds |
| `ProvenanceLeaves.ArrivedOnPortIsTheSenders` | crates/pureflow-rules/src/node.rs:315-333 | on a packet a rule node forwarded, `ArrivedOnPort` holds exactly for the output port at the other end of its edge |
| `ProvenanceLeaves.LegalArrivalLeaf` | crates/pureflow-contract/src/rules.rs:289-298 | so there a leaf that passes validation holds only where the host's input and the sender's output share a name |
| `RuleNode.AwaitReserve` | crates/pureflow-core/src/ports.rs:478-490 | the loop ends with the first poll that does not yield |
| `RuleNode.Send` | crates/pureflow-core/src/ports.rs:1080-1087 | a send waits for its reservation, then passes the validator; `RuleNodeSends.SendingIff` says exactly how it ends |
| `RuleNode.ExecuteAction` | crates/pureflow-rules/src/node.rs:274-312 | at most one send, to the action's port, made exactly when nothing fails; fails on a halt, a message id that is no identifier, an unknown port, or as the send's polls decide |
| `RuleNode.Handle` | crates/pureflow-rules/src/node.rs:147-186 | one packet: decided, always recorded, then sent exactly when its send is carried out |
| `RuleNode.Run` | crates/pureflow-rules/src/node.rs:118-199 | in every environment the log lacks the last packet's send exactly when it was not carried out, and the run stops where and why the environment made it |
| `RuleNodeLaws.RunIsDetermined` | crates/pureflow-rules/src/node.rs:118-199 | one environment, one run: packets, log and outcome are determined |
| `RuleNodeLaws.AwaitedCancelledIff` | crates/pureflow-core/src/ports.rs:478-490 | a reservation is cancelled iff the token is, at a poll no later than the first that finds the port not full |
| `RuleNodeLaws.AwaitedGrantedIff` | crates/pureflow-core/src/ports.rs:478-490 | a reservation is granted iff the port opens while the token has been active throughout |
| `RuleNodeLaws.UnsentByCancellationIff` | crates/pureflow-rules/src/node.rs:284-288 | a packet goes unsent by cancellation iff it has a declared target and a valid message id and the token is cancelled no later than the first poll that finds the port not full |
| `RuleNodeLaws.DrainedIffActive` | crates/pureflow-rules/src/node.rs:149-190 | the packet in flight is finished iff the token is still active when its port opens |
| `RuleNodeLaws.CancelledPacketGoesUnsent` | crates/pureflow-rules/src/node.rs:284-288 | a run that breaks the drain promise: a routed packet, an open port and a cancelled token |
| `RuleNodeSends.AwaitedDisconnectedIff` | crates/pureflow-core/src/ports.rs:478-490 | a reservation finds its receiver gone iff the first poll that is not full does, with the token active so far |
| `RuleNodeSends.AwaitedYieldsIff` | crates/pureflow-core/src/ports.rs:478-490 | it goes on waiting iff every poll found the port full and the token active |
| `RuleNodeSends.SendingIff` | crates/pureflow-core/src/ports.rs:1080-1087 | a send is made, held up, cancelled, disconnected or rejected exactly as its polls and the validator say |
| `RuleNodeSends.DoneIff` | crates/pureflow-rules/src/node.rs:274-312 | a decision is carried out iff there is nothing to send and no halt, or its port opens while the token is active and the packet is not rejected |
| `RuleNodeSends.DisconnectedIff` | crates/pureflow-core/src/ports.rs:484-489 | the send fails for a receiver that is gone iff one is found gone before the port opens or the token is cancelled |
| `RuleNodeSends.RejectedIff` | crates/pureflow-core/src/ports.rs:527-534 | it fails for the validator iff the port opens and the validator rejects the packet, for that reason |
| `RuleNodeSends.FailsUnpolledIff` | crates/pureflow-rules/src/node.rs:274-333 | halts, refused message ids and unknown ports fail before anything is polled, and exactly then |
| `RuleNodeSends.TargetIs` | crates/pureflow-rules/src/node.rs:282-307 | a routed packet goes to its port, a dead letter to `dead_letter`, nothing else anywhere |
| `RuleNodeSends.FailureEndsRun` | crates/pureflow-rules/src/node.rs:182-185 | a failed packet is recorded, not sent, and ends the run with its failure |
| `RuleNodeSends.HaltEndsRun` | crates/pureflow-rules/src/node.rs:308-310 | a halt ends the run with its message and sends nothing |
| `RuleNodeSends.DisconnectedPacketFails` | crates/pureflow-core/src/ports.rs:484-489 | a run on a port whose receiver is gone: recorded, not sent, failed |
| `RuleNodeSends.RecordTells` | crates/pureflow-rules/src/node.rs:203-240 | a record names its node and run, the whole rule set, the decision, and the packet's source node and arrival port |
| `RuleNodeSends.SubjectTells` | crates/pureflow-rules/src/node.rs:149-166 | rules see a packet's payload, source and target and the node's workflow, and no tags or hops |
| `RuleNodeSends.RecordPrecedesSend` | crates/pureflow-rules/src/node.rs:171-186 | every packet sent was received and recorded right before, and went where its own decision sent it |
| `RuleNodeLaws.TraceRoutesFaithfully` | crates/pureflow-rules/src/node.rs:118-199 | in a complete trace records match packets one to one and each port carries exactly the payloads decided for it |
| `RuleNodeLaws.RunTrace` | crates/pureflow-rules/src/node.rs:171-186 | no record is missing in any run; a port misses a payload, the last packet's, iff that packet targets it and its send was not carried out |
| `RuleNodeLaws.RunValidated` | crates/pureflow-core/src/ports.rs:1121-1132 | a validated rule node never ends with an unknown port, in any environment |
| `RuleNodeLaws.MessageIdsMeetIff` | crates/pureflow-rules/src/node.rs:315-325 | two forwarded packets share a message id iff they share number and port, whatever the port names |
| `RuleNodeLaws.DigitsRead` | crates/pureflow-rules/src/node.rs:315-325 | the digits in a message id read back as the packet's number |
| `RuleNodeLaws.MessageIdRefusedIff` | crates/pureflow-types/src/lib.rs:84-90 | a message id is refused iff the counter has outgrown the digits that the names of node and port leave room for in 256 bytes |
| `Identifiers.NotIdentifiers` | crates/pureflow-types/src/lib.rs:84-104 | nothing empty, over 256 bytes, or with whitespace or control characters is an identifier |
| `RuleNodeLaws.NumbersMeetIff` | crates/pureflow-rules/src/node.rs:183-183 | the wrapping counter repeats exactly after its whole range |
| `RuleNodeLaws.MessageIdsAreFresh` | crates/pureflow-rules/src/node.rs:315-325 | no two packets sent in one run share a message id, up to the counter's range |
| `RuleNodeLaws.ForwardedPacketIsAccepted` | crates/pureflow-engine/src/lib.rs:811-864 | a forwarded packet passes the host's validator and keeps its payload |
| `RuleNodeLaws.ArrivalPortIsUpstreamOutput` | crates/pureflow-rules/src/node.rs:315-325 | downstream, `ArrivedOnPort` holds exactly for the upstream output port's name |
| `Join.ParseInvertsPrint` | crates/pureflow-engine/examples/stream_join_window.rs:449-485 | parsing accepts exactly the printed forms of colon-free entries, and inverts printing |
| `Join.JoinState.AcceptEvent` | crates/pureflow-engine/examples/stream_join_window.rs:213-226 | an error changes nothing; an event meets its pending profile or becomes pending |
| `Join.JoinState.AcceptProfile` | crates/pureflow-engine/examples/stream_join_window.rs:228-241 | an error changes nothing; a profile meets its pending event or becomes pending |
| `Join.JoinState.Accept` | crates/pureflow-engine/examples/stream_join_window.rs:203-211 | dispatch by port; any other port is an error that changes nothing |
| `Join.JoinWindow` | crates/pureflow-engine/examples/stream_join_window.rs:129-159 | the loop takes in arrivals up to the first that fails to be received, read, parsed or have its row sent, and reports why; the rows sent are those of the items taken in, but for one that could not be sent |
| `Join.PendingStayDisjoint` | crates/pureflow-engine/examples/stream_join_window.rs:213-241 | after any arrivals, repeated keys included, no key is pending on both sides |
| `Join.JoinsRelationally` | crates/pureflow-engine/examples/stream_join_window.rs:203-256 | when shared keys are not repeated, the rows are the relational join, each once, and the leftovers are the rest |
| `Join.OrderIndependentIff` | crates/pureflow-engine/examples/stream_join_window.rs:203-256 | rows and leftovers are the same for every interleaving iff no key shared by the streams is repeated in one |
| `Join.LeftoversAreArrivals` | crates/pureflow-engine/examples/stream_join_window.rs:243-255 | every leftover payload is letter for letter one that arrived on its port |
| `Join.PendingIsReported` | crates/pureflow-engine/examples/stream_join_window.rs:243-255 | every pending entry is reported as a leftover, and nothing else is |
| `Join.EntryTextIs` | crates/pureflow-engine/examples/stream_join_window.rs:243-255 | an entry prints as its kind, window, account and value between colons |
| `Join.RowsAreArrivals` | crates/pureflow-engine/examples/stream_join_window.rs:213-241 | every row joins an event and a profile that arrived under its key, the action from the one and the tier from the other |
| `Join.SentRowsArePlain` | crates/pureflow-engine/examples/stream_join_window.rs:487-489 | the text of every row splits into `joined`, window, account, action and tier |
| `Sampling.TieredSink.ShouldRecord` | crates/pureflow-core/src/metadata.rs:972-993 | keeps the fact iff its tier and ordinal call for it, and counts data facts up to saturation |
| `Sampling.TieredSink.RecordWithTier` | crates/pureflow-core/src/metadata.rs:1006-1012 | the inner sink holds exactly the selected facts of all those offered |
| `Sampling.TieredSink.Record` | crates/pureflow-core/src/metadata.rs:1015-1022 | records without a tier are control facts |
| `Sampling.SelectedInOrder` | crates/pureflow-core/src/metadata.rs:1006-1012 | the selected facts are those kept, in the order offered, none twice |
| `Sampling.ControlAndHighCost` | crates/pureflow-core/src/metadata.rs:972-993 | all control facts in order, and all high-cost facts or none |
| `Sampling.SampledData` | crates/pureflow-core/src/metadata.rs:769-772 | exactly the data facts at ordinals divisible by r, ceil(n/r) of them, in order |
| `Sampling.NoRateNoData` | crates/pureflow-core/src/metadata.rs:769-772 | without a rate no data fact is kept |
| `Sampling.SaturatedSampling` | crates/pureflow-core/src/metadata.rs:972-993 | past the counter's range data facts are all kept or all dropped |

## Left out

- Sampling.SampledData: stated for up to 2^64 data facts, the range of the 64-bit counter; `SaturatedSampling` says what happens beyond.
- RuleNodeLaws.MessageIdsAreFresh: stated for up to 2^64 packets in one run, after which the counter wraps and `NumbersMeetIff` says which ids return.
- Deadlock.NoGlobalDeadlock: says that some poll completes, not that a blocked receive is woken; wakers are not modelled.
- FlowLiveness.RunsFinish: fairness is assumed of the schedule (every node is polled again and again), since wakers are not modelled; a failing poll and the supervisor's cancellation request are one step, as the collector handles a result before polling again.
- Executors.MixedRunsFinish: a rule node has its one input `in`; one with further inputs receives on `in` alone, which can block a run (`Deadlock.PortwiseReceiveDeadlocks`).
- Network.FinishKeepsInv: a node's ports go when it ends; `PortsOut` can be cloned, and an executor that hands a clone to something that outlives its node keeps those senders alive, which no state here shows.
- Simulation.Execute: a receive is polled as before a cancellation request is seen; the machine lets a node receive after one, which the source refuses.
- ShadowNecessity.DeletionIsSafeIff: stated for `Always`, `Never` and `FieldEq`; with other conditions the all-packets condition depends on which of them can hold together, and `PruneIsExact` gives the condition packet by packet.
- Join.LeftoversAreArrivals: the leftovers are a set; their order by key is not modelled.
- Lifecycle.LogAgreesWithSummary: stated for fewer scheduled nodes than the largest 64-bit count, and for a sink and hook that accept everything; `TraceShape` says what one node writes when they refuse.
- Supervisor.SupervisorInvariant: stated for fewer scheduled nodes than the largest 64-bit count, where saturating addition is exact.
- The asynchronous runtime, wakers, threads and real time; the watchdog timer is an event that may occur at any moment.
- Cancellation of the runtime's own task context, which the channel can also report.
- Queue-pressure and message-boundary metadata records written by the ports, and trace output.
- Building output contracts from node contracts, capability and schema checks, and the cycle run policy's messages.
- Arrow payloads, WebAssembly and filesystem nodes, the command line, manifests and JSON projections.
- The wording of error messages and condition descriptions; errors are structured values.
- Identifier validation other than of the message ids a rule node builds; other identifiers are arbitrary strings.
- The remaining examples and the benchmarks, which drive the same operations on fixed data.
