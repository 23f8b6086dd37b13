/** The contract validator that guards every packet entering a graph edge. */
module Validation {
  import opened Types

  datatype Rejection = NoContract | WrongWorkflow | WrongExecution | NoSource | WrongSource

  /** `ContractOutputValidator`: one per node, carrying that node's contracted output ports. */
  datatype Validator = Validator(
    workflow: WorkflowId, node: NodeId, execution: Execution, ports: set<PortId>)

  /** Accepts exactly the packets that truthfully name the run and this output; their target is never looked at. */
  function Validate(v: Validator, port: PortId, p: Packet): (r: Option<Rejection>)
    ensures r.None? <==> port in v.ports && Provenance(v.workflow, v.execution, Endpoint(v.node, port), p)
  {
    if port !in v.ports then Some(NoContract)
    else if p.workflow != v.workflow then Some(WrongWorkflow)
    else if p.execution != v.execution then Some(WrongExecution)
    else match p.source
      case None => Some(NoSource)
      case Some(source) =>
        if source.node != v.node || source.port != port then Some(WrongSource) else None
  }

  /** A packet that truthfully names the run and the output it leaves through. */
  predicate Provenance(workflow: WorkflowId, execution: Execution, at: Endpoint, p: Packet) {
    p.workflow == workflow && p.execution == execution && p.source == Some(at)
  }
}
