/** Shapes shared by the relay and the browser client: the `message` event
    payload as both sides build and read it. */
module Signal {

  /** `None` stands for a JavaScript property that is absent (`undefined`). */
  datatype Option<+T> = None | Some(value: T)

  /** An opaque session description (SDP offer or answer). */
  type Sdp = string

  /** An opaque ICE candidate (the `RTCIceCandidateInit` a peer trickles). */
  type IceCandidate = string

  /** The `type` field the client switches on; any other string falls through. */
  datatype Kind =
    | Offer | Answer | Candidate | Disconnect
    | UserJoined | UserLeft | ExistingUsers
    | Unrecognised(tag: string)

  /** The `message` object exactly as it travels: one flat record whose fields are
      present or absent depending on who built it. The relay copies every field
      (`{ ...message }`) and overwrites only `remoteUserId`. */
  datatype Message = Message(
    kind: Kind,
    remoteUserId: Option<string>,
    senderUserId: Option<string>,
    userId: Option<string>,
    users: seq<string>,
    offer: Option<Sdp>,
    answer: Option<Sdp>,
    candidate: Option<IceCandidate>)

  /** A message carrying only its `type`, before any other field is spread in. */
  function Bare(kind: Kind): Message
  {
    Message(kind, None, None, None, [], None, None, None)
  }
}
