/** Plain data exchanged by the replicas: keys, records, requests and messages. */
module Types {

  datatype Option<+T> = None | Some(value: T)

  type byte = bv8

  type Key = seq<byte>
  type Value = string
  type NodeId = string
  type ReqId = nat

  /** A value together with the version the head gave it. */
  datatype Record = Record(version: nat, value: Value)

  /** A write on its way down the chain. Version 0 marks a write that comes from a client.
      The client address is None when it does not have the shape host:port. */
  datatype PutRequest = PutRequest(
    id: ReqId, key: Key, value: Value, version: nat, client: Option<string>, epoch: nat)

  /** Everything replicas send without waiting for an answer. */
  datatype Message =
    | ForwardPut(to: NodeId, req: PutRequest)
    | WriteAck(to: NodeId, id: ReqId, ackKey: Key, ackVersion: nat, epoch: nat)
    | CommitAck(client: string, doneKey: Key, doneVersion: nat)

  /** Error answers. A refused write names the head to go to instead, a refused read or query names nobody. */
  datatype Fault =
    | NoMembership
    | WrongNode(instead: Option<NodeId>)
    | WrongMode
    | NotFound
    | StaleEpoch
    | TailUnavailable
    | VersionNotFound

  datatype PutResponse = PutOk(version: nat) | PutError(error: Fault)

  datatype GetResponse = Found(value: Value, version: nat) | GetError(error: Fault)

  datatype VersionResponse = Committed(version: nat) | QueryError(error: Fault)

  /** An entry of the pending table: the write and how often it was sent again. */
  datatype Pending = Pending(req: PutRequest, retries: nat)

  type Table = map<ReqId, Pending>

  /** A sequence without one of its elements. */
  function RemoveAt<T>(s: seq<T>, i: nat): (rest: seq<T>)
    requires i < |s|
    ensures |rest| == |s| - 1
  {
    s[..i] + s[i + 1..]
  }
}
