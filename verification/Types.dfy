/** Identifiers, packets and small wrappers shared by every module. */
module Types {

  type NodeId = string
  type PortId = string
  type WorkflowId = string

  datatype Option<+T> = None | Some(value: T)

  datatype Result<+T, +E> = Ok(value: T) | Err(error: E)

  /** A node and one of its ports: an edge end, or one end of a packet's route. */
  datatype Endpoint = Endpoint(node: NodeId, port: PortId)

  datatype Execution = Execution(id: string, attempt: nat)

  /** IEEE doubles up to the sign of zero, by their exact values. */
  datatype Float = NaN | NegInf | PosInf | Finite(value: real)

  type Int64 = i: int | -0x8000_0000_0000_0000 <= i < 0x8000_0000_0000_0000

  type JsonInt = i: int | -0x8000_0000_0000_0000 <= i < 0x1_0000_0000_0000_0000

  /** A JSON number: a signed or unsigned 64-bit integer, or a float, which is always finite. */
  datatype Number = IntNumber(i: JsonInt) | FloatNumber(value: real)

  datatype Json =
    | JNull
    | JBool(b: bool)
    | JNumber(n: Number)
    | JString(s: string)
    | JArray(items: seq<Json>)
    | JObject(fields: map<string, Json>)

  datatype Payload = Bytes(bytes: seq<bv8>) | Control(value: Json)

  datatype Packet = Packet(
    messageId: string,
    workflow: WorkflowId,
    execution: Execution,
    source: Option<Endpoint>,
    target: Endpoint,
    payload: Payload)
}
