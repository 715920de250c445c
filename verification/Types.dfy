/** Wire messages and the records shared by the coordination components. */
module Types {
  import opened Bytes

  datatype Option<+T> = None | Some(value: T)

  /** libp2p peer IDs are byte strings, compared bytewise. */
  type PeerId = Bytes
  const NO_PEER: PeerId := []

  datatype ProposalType = Add | Remove | Update | Join

  /** The integer value of a proposal type, which orders the types. */
  function TypeCode(t: ProposalType): nat {
    match t
    case Add => 0
    case Remove => 1
    case Update => 2
    case Join => 3
  }

  /** One entry of the single-writer buffer: raw MLS bytes plus routing metadata. */
  datatype BufferedProposal = BufferedProposal(
    kind: ProposalType, data: Bytes, ref: Bytes, operationId: string, target: string,
    requestId: string, groupType: string, categoryId: string, keyPackageHash: Bytes)

  /** The same proposal on the wire. */
  datatype ProposalMsg = ProposalMsg(
    kind: ProposalType, data: Bytes, ref: Bytes, operationId: string, target: string, targetIdentity: Bytes,
    requestId: string, groupType: string, categoryId: string, keyPackageHash: Bytes)

  datatype AddDelivery = AddDelivery(
    operationId: string, target: string, requestId: string, groupType: string, categoryId: string,
    keyPackageHash: Bytes, welcomeHash: Bytes)

  datatype CommitMsg = CommitMsg(
    commitData: Bytes, newTreeHash: Bytes, deliveries: seq<AddDelivery>,
    included: seq<ProposalMsg>, committedRefs: seq<Bytes>)

  /** A hybrid-logical-clock timestamp: unix milliseconds, a uint32 counter, and the node's text as a tiebreak. */
  datatype Timestamp = Timestamp(wall: int, counter: nat, node: Bytes)

  /** A message's payload by type; `None` is a payload that does not decode. */
  datatype Body =
    | ProposalBody(proposal: Option<ProposalMsg>)
    | CommitBody(commit: Option<CommitMsg>)
    | ApplicationBody(ciphertext: Option<Bytes>)
    | OtherBody

  /** An envelope; the value stands for its wire bytes. */
  datatype Envelope = Envelope(group: Bytes, epoch: nat, from: string, ts: Timestamp, body: Body)
}
