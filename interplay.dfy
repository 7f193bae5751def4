/** The relay and the client together. The relay stamps the sender's id into
    `remoteUserId`, while the client's handlers read `senderUserId`, a field
    that no client ever fills in. Every relayed message therefore reaches the
    client's handlers with an absent sender, and replies are addressed to the
    property name "undefined". */
module Interplay {
  import opened Signal
  import Server
  import Webrtc

  /** What `sendMessage` puts on the wire never names its sender. */
  predicate ClientBuilt(m: Message)
  {
    m.senderUserId.None?
  }

  lemma SendMessageOmitsSender(m: Message, remote: Webrtc.Key, candidate: Option<IceCandidate>)
    ensures ClientBuilt(Webrtc.Addressed(m, remote, candidate)) <==> ClientBuilt(m)
    ensures ClientBuilt(Webrtc.Addressed(Bare(m.kind), remote, candidate))
  {
  }

  /** A client's message reaches the recipient's socket, carrying the sender's
      id in `remoteUserId` and still no `senderUserId`: the recipient's
      handlers key the exchange under `undefined` whoever sent it. */
  lemma RelayedMessageArrivesWithoutSender(u: Server.Users, from: Server.SocketId, m: Message)
    requires ClientBuilt(m)
    requires Server.PropertyKey(m.remoteUserId) in u.bound
    ensures var d := Server.Forwarded(u, from, m);
      && d.Some?
      && d.value.to == u.bound[Server.PropertyKey(m.remoteUserId)]
      && d.value.message.remoteUserId == Server.SenderOf(u, from)
      && d.value.message.senderUserId.None?
  {
  }

  /** Two different registered senders offering to the same recipient are
      indistinguishable to it: both offers land under the same key. */
  lemma DistinctSendersShareOneKey(u: Server.Users, a: Server.SocketId, b: Server.SocketId,
                                   ma: Message, mb: Message)
    requires Server.WellFormed(u)
    requires ClientBuilt(ma) && ClientBuilt(mb)
    requires Server.PropertyKey(ma.remoteUserId) in u.bound
    requires Server.PropertyKey(mb.remoteUserId) in u.bound
    requires Server.SenderOf(u, a).Some? && Server.SenderOf(u, b).Some?
    requires Server.SenderOf(u, a) != Server.SenderOf(u, b)
    ensures Server.Forwarded(u, a, ma).value.message.remoteUserId
         != Server.Forwarded(u, b, mb).value.message.remoteUserId
    ensures Server.Forwarded(u, a, ma).value.message.senderUserId
         == Server.Forwarded(u, b, mb).value.message.senderUserId
  {
  }

  /** The answer (or candidate) a client sends back to a relayed message is
      addressed to the key its handler read, `senderUserId`, which is absent:
      the relay looks up the property "undefined", and the reply is dropped
      unless some client registered under that very name. */
  lemma ReplyToRelayedMessageIsAddressedToUndefined(u: Server.Users, from: Server.SocketId,
                                                    replier: Server.SocketId, m: Message,
                                                    reply: Message)
    requires ClientBuilt(m) && ClientBuilt(reply)
    requires Server.Forwarded(u, from, m).Some?
    ensures var delivered := Server.Forwarded(u, from, m).value.message;
      var sent := Webrtc.Addressed(reply, delivered.senderUserId, reply.candidate);
      && delivered.senderUserId.None?
      && (Server.Forwarded(u, replier, sent).None? <==> "undefined" !in u.bound)
      && (Server.Forwarded(u, replier, sent).Some? ==>
            Server.Forwarded(u, replier, sent).value.to == u.bound["undefined"])
  {
  }
}
