/** The browser side of negotiation: `WebrtcService` and its per-peer tables
    of connections, buffered ICE candidates and remote streams. Browser
    objects (`RTCPeerConnection`, `MediaStream`) are records and handles; every
    socket emit is appended to an outbox. */
module Webrtc {
  import opened Signal

  /** A key of the service's `Map`s: a user id, or `undefined` when the message
      field it was read from is absent (a JavaScript `Map` keeps `undefined` as
      a key of its own). */
  type Key = Option<string>

  datatype Mode = Video | Audio | File

  /** The `MediaStreamConstraints` handed to `getUserMedia`. */
  datatype Constraints = Constraints(audio: bool, video: bool)

  /** The local `MediaStream`: a handle and the constraints it was acquired with. */
  datatype LocalStream = LocalStream(handle: nat, constraints: Constraints)

  /** An `RTCPeerConnection`, reduced to what the service does to it. */
  datatype PeerConnection = PeerConnection(
    handle: nat,
    localTracks: Option<nat>,          // handle of the local stream whose tracks were added
    localDescription: Option<Sdp>,
    remoteDescription: Option<Sdp>,
    applied: seq<IceCandidate>)        // candidates passed to `addIceCandidate`, in call order

  /** What the service emits on its socket. */
  datatype Emit =
    | Register(userId: string)
    | JoinRoom(userId: string, roomId: string)
    | LeaveRoom(userId: string, roomId: string)
    | Send(message: Message)

  /** The browser's answers to the calls one handler makes: whether
      `getUserMedia` grants a stream, and what `createOffer` and
      `createAnswer` produce. */
  datatype Browser = Browser(mediaGranted: bool, offer: Sdp, answer: Sdp)

  /** Audio is always requested; video only for a video call. */
  function MediaConstraints(mode: Mode): (c: Constraints)
    ensures c.audio
    ensures c.video <==> mode == Video
  {
    Constraints(true, mode == Video)
  }

  /** `sendMessage`: the message with `remoteUserId` and `candidate` written over it. */
  function Addressed(m: Message, remote: Key, candidate: Option<IceCandidate>): (r: Message)
    ensures r.remoteUserId == remote && r.candidate == candidate
    ensures r.(remoteUserId := m.remoteUserId, candidate := m.candidate) == m
  {
    m.(remoteUserId := remote, candidate := candidate)
  }

  function NewConnection(handle: nat, tracks: Option<nat>): PeerConnection
  {
    PeerConnection(handle, tracks, None, None, [])
  }

  /** One remote peer's entries in `peerConnections` and `iceCandidateQueues`. */
  datatype Slot = Slot(pc: Option<PeerConnection>, queue: Option<seq<IceCandidate>>)

  /** A connection that was just created: nothing negotiated, nothing buffered. */
  predicate Unnegotiated(s: Slot)
  {
    && s.pc.Some? && s.queue == Some([])
    && s.pc.value.localDescription.None? && s.pc.value.remoteDescription.None?
    && s.pc.value.applied == []
  }

  /** The buffering discipline: connection and queue exist together and obey
      `Buffered`. */
  predicate Consistent(s: Slot)
  {
    (s.pc.Some? <==> s.queue.Some?) && (s.pc.Some? ==> Buffered(s.pc.value, s.queue.value))
  }

  /** No candidate is applied before the remote description is known, and none
      stays buffered once it is. */
  predicate Buffered(pc: PeerConnection, queue: seq<IceCandidate>)
  {
    && (pc.remoteDescription.None? ==> pc.applied == [])
    && (pc.remoteDescription.Some? ==> queue == [])
  }

  /** `handleCandidate` for one well-formed candidate. */
  function ReceiveCandidate(s: Slot, c: IceCandidate): (r: Slot)
    ensures (r.pc.Some? <==> s.pc.Some?) && (r.queue.Some? <==> s.queue.Some?)
    ensures r.pc.Some? ==> r.pc.value.(applied := s.pc.value.applied) == s.pc.value
    ensures Consistent(s) && s.pc.Some? ==>
      r.pc.value.applied + r.queue.value == s.pc.value.applied + s.queue.value + [c]
    ensures s.queue.None? && (s.pc.None? || s.pc.value.remoteDescription.None?) ==> r == s
  {
    if s.pc.Some? && s.pc.value.remoteDescription.Some? then
      Slot(Some(s.pc.value.(applied := s.pc.value.applied + [c])), s.queue)
    else if s.queue.Some? then
      Slot(s.pc, Some(s.queue.value + [c]))
    else
      s
  }

  /** `processIceCandidateQueue`. */
  function Drain(s: Slot): (r: Slot)
    ensures (r.pc.Some? <==> s.pc.Some?) && (r.queue.Some? <==> s.queue.Some?)
    ensures r.pc.Some? ==> r.pc.value.(applied := s.pc.value.applied) == s.pc.value
    ensures r.pc.Some? && r.queue.Some? ==>
      r.pc.value.applied + r.queue.value == s.pc.value.applied + s.queue.value
    ensures r != s ==>
      && s.pc.Some? && s.pc.value.remoteDescription.Some?
      && s.queue.Some? && s.queue.value != []
  {
    if s.queue.Some? && s.pc.Some? && s.pc.value.remoteDescription.Some? then
      assert s.queue.value == [] ==> s.pc.value.applied + s.queue.value == s.pc.value.applied;
      Slot(Some(s.pc.value.(applied := s.pc.value.applied + s.queue.value)), Some([]))
    else
      s
  }

  /** `setRemoteDescription` followed by `processIceCandidateQueue`. */
  function RemoteDescribed(s: Slot, d: Sdp): (r: Slot)
    requires s.pc.Some?
    ensures r.pc.Some? && r.pc.value.remoteDescription == Some(d)
    ensures r.pc.value.(remoteDescription := s.pc.value.remoteDescription, applied := s.pc.value.applied)
            == s.pc.value
    ensures s.queue.Some? ==>
      r.queue == Some([]) && r.pc.value.applied == s.pc.value.applied + s.queue.value
    ensures s.queue.None? ==> r == Slot(Some(s.pc.value.(remoteDescription := Some(d))), None)
  {
    Drain(Slot(Some(s.pc.value.(remoteDescription := Some(d))), s.queue))
  }

  /** Candidates arriving one after another. */
  function ReceiveAll(s: Slot, cs: seq<IceCandidate>): Slot
    decreases |cs|
  {
    if cs == [] then s else ReceiveAll(ReceiveCandidate(s, cs[0]), cs[1..])
  }

  lemma CandidateAppliedOrQueued(s: Slot, c: IceCandidate)
    ensures var r := ReceiveCandidate(s, c);
      && (s.pc.Some? && s.pc.value.remoteDescription.Some? ==>
            r.pc == Some(s.pc.value.(applied := s.pc.value.applied + [c])) && r.queue == s.queue)
      && (!(s.pc.Some? && s.pc.value.remoteDescription.Some?) && s.queue.Some? ==>
            r.pc == s.pc && r.queue == Some(s.queue.value + [c]))
      && (!(s.pc.Some? && s.pc.value.remoteDescription.Some?) && s.queue.None? ==> r == s)
      && (Consistent(s) ==> Consistent(r))
  {
  }

  /** Once the remote description is set, one drain settles the slot: the
      queue is empty, the buffering discipline holds, and draining again
      changes nothing. */
  lemma DrainSettles(s: Slot)
    ensures Drain(Drain(s)) == Drain(s)
    ensures s.pc.Some? && s.queue.Some? && s.pc.value.remoteDescription.Some? ==>
      Consistent(Drain(s)) && Drain(s).queue == Some([])
    ensures s.pc.Some? && s.pc.value.remoteDescription.None? ==> Drain(s) == s
  {
  }

  lemma RemoteDescriptionReleasesQueue(s: Slot, d: Sdp)
    requires Consistent(s) && s.pc.Some?
    ensures var r := RemoteDescribed(s, d);
      && Consistent(r)
      && r.pc.Some? && r.pc.value.remoteDescription == Some(d)
      && r.pc.value.applied == s.pc.value.applied + s.queue.value
      && r.queue == Some([])
      && r.pc.value.(remoteDescription := s.pc.value.remoteDescription, applied := s.pc.value.applied)
         == s.pc.value
  {
  }

  /** `handleOffer` once a connection exists: the offer becomes the remote
      description, the queue is drained, and the answer becomes the local
      description. */
  function Answered(s: Slot, offer: Sdp, answer: Sdp): (r: Slot)
    requires s.pc.Some?
    ensures r.pc.Some?
    ensures r.pc.value.remoteDescription == Some(offer)
    ensures r.pc.value.localDescription == Some(answer)
    ensures r.pc.value.handle == s.pc.value.handle && r.pc.value.localTracks == s.pc.value.localTracks
    ensures r.queue.Some? <==> s.queue.Some?
  {
    var r := RemoteDescribed(s, offer);
    Slot(Some(r.pc.value.(localDescription := Some(answer))), r.queue)
  }

  lemma OfferAnsweredReleasesQueue(s: Slot, offer: Sdp, answer: Sdp)
    requires Consistent(s) && s.pc.Some?
    ensures var r := Answered(s, offer, answer);
      && Consistent(r)
      && r.pc.Some?
      && r.pc.value.remoteDescription == Some(offer)
      && r.pc.value.localDescription == Some(answer)
      && r.pc.value.applied == s.pc.value.applied + s.queue.value
      && r.queue == Some([])
      && r.pc.value.handle == s.pc.value.handle
      && r.pc.value.localTracks == s.pc.value.localTracks
  {
    RemoteDescriptionReleasesQueue(s, offer);
  }

  lemma {:induction false} QueuedInArrivalOrder(s: Slot, cs: seq<IceCandidate>)
    requires s.pc.Some? && s.pc.value.remoteDescription.None? && s.queue.Some?
    ensures ReceiveAll(s, cs) == Slot(s.pc, Some(s.queue.value + cs))
    decreases |cs|
  {
    if cs == [] {
      assert s.queue.value + cs == s.queue.value;
    } else {
      QueuedInArrivalOrder(ReceiveCandidate(s, cs[0]), cs[1..]);
      assert s.queue.value + [cs[0]] + cs[1..] == s.queue.value + cs;
    }
  }

  lemma {:induction false} AppliedInArrivalOrder(s: Slot, cs: seq<IceCandidate>)
    requires s.pc.Some? && s.pc.value.remoteDescription.Some?
    ensures ReceiveAll(s, cs) == Slot(Some(s.pc.value.(applied := s.pc.value.applied + cs)), s.queue)
    decreases |cs|
  {
    if cs == [] {
      assert s.pc.value.applied + cs == s.pc.value.applied;
    } else {
      AppliedInArrivalOrder(ReceiveCandidate(s, cs[0]), cs[1..]);
      assert s.pc.value.applied + [cs[0]] + cs[1..] == s.pc.value.applied + cs;
    }
  }

  lemma {:induction false} DroppedWithoutQueue(s: Slot, cs: seq<IceCandidate>)
    requires s.pc.None? && s.queue.None?
    ensures ReceiveAll(s, cs) == s
    decreases |cs|
  {
    if cs != [] {
      DroppedWithoutQueue(ReceiveCandidate(s, cs[0]), cs[1..]);
    }
  }

  lemma {:induction false} ReceiveAllKeepsConsistent(s: Slot, cs: seq<IceCandidate>)
    requires Consistent(s)
    ensures Consistent(ReceiveAll(s, cs))
    decreases |cs|
  {
    if cs != [] {
      CandidateAppliedOrQueued(s, cs[0]);
      ReceiveAllKeepsConsistent(ReceiveCandidate(s, cs[0]), cs[1..]);
    }
  }

  /** Trickle ICE end to end, for any connection still waiting for its remote
      description (a fresh one, or the caller's after it set its local offer):
      what was buffered, the candidates that race ahead of the description and
      those that follow it all reach the connection, in the order they
      arrived, none is left buffered, and the local description is kept. */
  lemma CandidatesKeepArrivalOrder(s: Slot, early: seq<IceCandidate>, d: Sdp, late: seq<IceCandidate>)
    requires Consistent(s) && s.pc.Some? && s.pc.value.remoteDescription.None?
    ensures ReceiveAll(s, early).pc.Some?
    ensures var r := ReceiveAll(RemoteDescribed(ReceiveAll(s, early), d), late);
      && r.pc.Some? && r.pc.value.applied == s.queue.value + early + late && r.queue == Some([])
      && r.pc.value.remoteDescription == Some(d)
      && r.pc.value.localDescription == s.pc.value.localDescription
      && r.pc.value.handle == s.pc.value.handle
  {
    QueuedInArrivalOrder(s, early);
    var described := RemoteDescribed(ReceiveAll(s, early), d);
    AppliedInArrivalOrder(described, late);
  }


  /** The entries of `k` in a connection table and a queue table. */
  function SlotIn(pcs: map<Key, PeerConnection>, queues: map<Key, seq<IceCandidate>>, k: Key): Slot
  {
    Slot(if k in pcs then Some(pcs[k]) else None, if k in queues then Some(queues[k]) else None)
  }

  /** Two tables hold the same entries for every key outside `keys`. */
  ghost predicate AgreeOutside<V>(a: map<Key, V>, b: map<Key, V>, keys: set<Key>)
  {
    forall k | k !in keys :: (k in a <==> k in b) && (k in a ==> a[k] == b[k])
  }

  lemma UpdateAgrees<V>(m: map<Key, V>, k: Key, v: V)
    ensures AgreeOutside(m[k := v], m, {k})
  {
  }

  function Handles(pcs: map<Key, PeerConnection>): set<nat>
  {
    set k | k in pcs :: pcs[k].handle
  }

  /** `WebrtcService`: the fields its handlers update. The rxjs subjects
      `localStream$`, `remoteStreams$` and `incomingCall$` are held as their
      current values. */
  class WebrtcService {
    var userId: string
    var peerConnections: map<Key, PeerConnection>
    var iceCandidateQueues: map<Key, seq<IceCandidate>>
    var remoteStreams: map<Key, nat>
    var localStream: Option<LocalStream>
    var incomingCall: bool
    var currentRoomId: Option<string>
    /** Everything emitted on the socket, in order. */
    var outbox: seq<Emit>
    /** Handles of the connections that were `close()`d. */
    var closed: set<nat>
    /** Handles of the local streams whose tracks were stopped. */
    var stopped: set<nat>
    /** The next unused handle for a browser object. */
    var nextHandle: nat

    function SlotOf(k: Key): Slot
      reads this`peerConnections, this`iceCandidateQueues
    {
      SlotIn(peerConnections, iceCandidateQueues, k)
    }

    /** Connections and queues are kept for the same peers, and only those
        peers can have a remote stream. */
    ghost predicate Framed()
      reads this
    {
      && peerConnections.Keys == iceCandidateQueues.Keys
      && remoteStreams.Keys <= peerConnections.Keys
    }

    ghost predicate ValidExcept(remote: Key)
      reads this
    {
      && Framed()
      && forall k | k in peerConnections && k in iceCandidateQueues && k != remote ::
           Buffered(peerConnections[k], iceCandidateQueues[k])
    }

    ghost predicate Valid()
      reads this
    {
      && Framed()
      && forall k | k in peerConnections && k in iceCandidateQueues ::
           Buffered(peerConnections[k], iceCandidateQueues[k])
    }

    lemma ValidSlot(k: Key)
      requires Valid()
      ensures Consistent(SlotOf(k))
    {
    }

    constructor ()
      ensures Valid()
      ensures userId == "" && peerConnections == map[] && iceCandidateQueues == map[]
      ensures remoteStreams == map[] && localStream.None? && !incomingCall
      ensures currentRoomId.None? && outbox == [] && closed == {} && stopped == {}
    {
      userId := "";
      peerConnections := map[];
      iceCandidateQueues := map[];
      remoteStreams := map[];
      localStream := None;
      incomingCall := false;
      currentRoomId := None;
      outbox := [];
      closed := {};
      stopped := {};
      nextHandle := 0;
    }

    /** Creates a connection for `remote`, replacing any earlier one and its
        buffered candidates, and acquires the local stream if none is held.
        `ok` is false when `getUserMedia` rejects; the connection and the empty
        queue are in place by then. */
    method CreatePeerConnection(remote: Key, mode: Mode, granted: bool) returns (ok: bool)
      requires Valid()
      modifies this`peerConnections, this`iceCandidateQueues, this`remoteStreams
      modifies this`localStream, this`nextHandle
      ensures Valid()
      ensures ok <==> old(localStream).Some? || granted
      ensures localStream ==
        if old(localStream).Some? then old(localStream)
        else if granted then Some(LocalStream(old(nextHandle) + 1, MediaConstraints(mode)))
        else None
      ensures SlotOf(remote) ==
        Slot(Some(NewConnection(old(nextHandle), if ok then Some(localStream.value.handle) else None)),
             Some([]))
      ensures AgreeOutside(peerConnections, old(peerConnections), {remote})
      ensures AgreeOutside(iceCandidateQueues, old(iceCandidateQueues), {remote})
      ensures remoteStreams ==
        if ok then old(remoteStreams)[remote := old(nextHandle) + 2] else old(remoteStreams)
      ensures nextHandle == old(nextHandle) + 3
    {
      // handles for the connection, a local stream and the remote stream
      var handle := nextHandle;
      nextHandle := nextHandle + 3;
      var peerConnection := NewConnection(handle, None);
      peerConnections := peerConnections[remote := peerConnection];
      iceCandidateQueues := iceCandidateQueues[remote := []];
      if localStream.None? {
        var mediaConstraints := MediaConstraints(mode);
        if !granted {
          return false;
        }
        localStream := Some(LocalStream(handle + 1, mediaConstraints));
      }
      peerConnection := peerConnection.(localTracks := Some(localStream.value.handle));
      peerConnections := peerConnections[remote := peerConnection];
      remoteStreams := remoteStreams[remote := handle + 2];
      ok := true;
    }

    method SendMessage(message: Message, remote: Key, candidate: Option<IceCandidate>)
      modifies this`outbox
      ensures outbox == old(outbox) + [Send(Addressed(message, remote, candidate))]
    {
      outbox := outbox + [Send(Addressed(message, remote, candidate))];
    }

    /** The `onicecandidate` callback of the connection made for `remote`; the
        end-of-candidates event carries no candidate and sends nothing. */
    method OnIceCandidate(remote: Key, candidate: Option<IceCandidate>)
      modifies this`outbox
      ensures outbox == old(outbox) +
        if candidate.Some? then [Send(Addressed(Bare(Candidate), remote, candidate))] else []
    {
      if candidate.Some? {
        SendMessage(Bare(Candidate), remote, candidate);
      }
    }

    /** Applies every buffered candidate of `remote`, oldest first, and leaves
        the queue empty, provided both exist and the remote description is
        set; otherwise changes nothing. */
    method ProcessIceCandidateQueue(remote: Key)
      requires ValidExcept(remote) && Consistent(Drain(SlotOf(remote)))
      modifies this`peerConnections, this`iceCandidateQueues
      ensures Valid()
      ensures SlotOf(remote) == Drain(old(SlotOf(remote)))
      ensures AgreeOutside(peerConnections, old(peerConnections), {remote})
      ensures AgreeOutside(iceCandidateQueues, old(iceCandidateQueues), {remote})
      ensures peerConnections.Keys == old(peerConnections.Keys)
    {
      if remote in iceCandidateQueues && remote in peerConnections
         && peerConnections[remote].remoteDescription.Some?
      {
        ghost var queues0, pcs0 := iceCandidateQueues, peerConnections;
        ghost var queue0, pc0 := queues0[remote], pcs0[remote];
        var queue := iceCandidateQueues[remote];
        var peerConnection := peerConnections[remote];
        ghost var n := 0;
        while |queue| > 0
          invariant 0 <= n <= |queue0| && queue == queue0[n..]
          invariant peerConnection == pc0.(applied := pc0.applied + queue0[..n])
          decreases |queue|
        {
          var candidate := queue[0];
          queue := queue[1..];
          peerConnection := peerConnection.(applied := peerConnection.applied + [candidate]);
          n := n + 1;
          assert queue0[..n] == queue0[..n - 1] + [candidate];
        }
        iceCandidateQueues := iceCandidateQueues[remote := queue];
        peerConnections := peerConnections[remote := peerConnection];
        assert queue0[..n] == queue0;
        assert SlotOf(remote) == Slot(Some(pc0.(applied := pc0.applied + queue0)), Some([]));
        assert Buffered(peerConnection, queue);
        UpdateAgrees(pcs0, remote, peerConnection);
        UpdateAgrees(queues0, remote, queue);
      }
    }

    method HandleCandidate(message: Message)
      requires Valid()
      modifies this`peerConnections, this`iceCandidateQueues
      ensures Valid()
      ensures SlotOf(message.senderUserId) ==
        match message.candidate
        case None => old(SlotOf(message.senderUserId))
        case Some(c) => ReceiveCandidate(old(SlotOf(message.senderUserId)), c)
      ensures AgreeOutside(peerConnections, old(peerConnections), {message.senderUserId})
      ensures AgreeOutside(iceCandidateQueues, old(iceCandidateQueues), {message.senderUserId})
      ensures peerConnections.Keys == old(peerConnections.Keys)
    {
      var senderUserId := message.senderUserId;
      if message.candidate.None? {
        // `new RTCIceCandidate(undefined)` throws before anything is touched
        return;
      }
      var iceCandidate := message.candidate.value;
      if senderUserId in peerConnections && peerConnections[senderUserId].remoteDescription.Some? {
        var peerConnection := peerConnections[senderUserId];
        peerConnections := peerConnections[senderUserId :=
          peerConnection.(applied := peerConnection.applied + [iceCandidate])];
      } else if senderUserId in iceCandidateQueues {
        iceCandidateQueues := iceCandidateQueues[senderUserId :=
          iceCandidateQueues[senderUserId] + [iceCandidate]];
      }
    }

    method HandleAnswer(message: Message)
      requires Valid()
      modifies this`peerConnections, this`iceCandidateQueues
      ensures Valid()
      ensures SlotOf(message.senderUserId) ==
        if message.senderUserId in old(peerConnections) && message.answer.Some?
        then RemoteDescribed(old(SlotOf(message.senderUserId)), message.answer.value)
        else old(SlotOf(message.senderUserId))
      ensures AgreeOutside(peerConnections, old(peerConnections), {message.senderUserId})
      ensures AgreeOutside(iceCandidateQueues, old(iceCandidateQueues), {message.senderUserId})
      ensures peerConnections.Keys == old(peerConnections.Keys)
    {
      var senderUserId := message.senderUserId;
      if senderUserId in peerConnections {
        if message.answer.None? {
          // `new RTCSessionDescription(undefined)` throws
          return;
        }
        var peerConnection := peerConnections[senderUserId];
        peerConnections := peerConnections[senderUserId :=
          peerConnection.(remoteDescription := message.answer)];
        ProcessIceCandidateQueue(senderUserId);
      }
    }

    /** The tail of `handleOffer` once a connection for `remote` exists: the
        offer becomes its remote description, its queue is drained, the answer
        becomes its local description and is sent back to `remote`. */
    method AnswerOffer(remote: Key, offer: Sdp, answer: Sdp)
      requires Valid() && remote in peerConnections
      modifies this`peerConnections, this`iceCandidateQueues, this`outbox
      ensures Valid()
      ensures old(SlotOf(remote)).pc.Some?
      ensures SlotOf(remote) == Answered(old(SlotOf(remote)), offer, answer)
      ensures AgreeOutside(peerConnections, old(peerConnections), {remote})
      ensures AgreeOutside(iceCandidateQueues, old(iceCandidateQueues), {remote})
      ensures outbox == old(outbox) + [Send(Addressed(Bare(Answer).(answer := Some(answer)), remote, None))]
    {
      ghost var start := SlotOf(remote);
      ValidSlot(remote);
      OfferAnsweredReleasesQueue(start, offer, answer);
      var peerConnection := peerConnections[remote];
      peerConnections := peerConnections[remote := peerConnection.(remoteDescription := Some(offer))];
      ProcessIceCandidateQueue(remote);
      peerConnection := peerConnections[remote];
      peerConnections := peerConnections[remote := peerConnection.(localDescription := Some(answer))];
      assert SlotOf(remote) == Answered(start, offer, answer);
      SendMessage(Bare(Answer).(answer := Some(answer)), remote, None);
    }

    /** Raises the incoming-call flag, reuses or creates the connection for the
        sender, and, when the stream was granted and an offer is present,
        answers it through `AnswerOffer`. */
    method HandleOffer(message: Message, browser: Browser)
      requires Valid()
      modifies this`incomingCall, this`peerConnections, this`iceCandidateQueues
      modifies this`remoteStreams, this`localStream, this`nextHandle, this`outbox
      ensures Valid()
      ensures incomingCall
      ensures AgreeOutside(peerConnections, old(peerConnections), {message.senderUserId})
      ensures AgreeOutside(iceCandidateQueues, old(iceCandidateQueues), {message.senderUserId})
      ensures message.senderUserId in old(peerConnections) ==>
        && localStream == old(localStream) && remoteStreams == old(remoteStreams)
        && nextHandle == old(nextHandle)
      ensures message.senderUserId !in old(peerConnections) ==>
        && localStream == (if old(localStream).Some? then old(localStream)
             else if browser.mediaGranted then Some(LocalStream(old(nextHandle) + 1, MediaConstraints(Video)))
             else None)
        && remoteStreams == (if localStream.Some? then old(remoteStreams)[message.senderUserId := old(nextHandle) + 2]
             else old(remoteStreams))
        && nextHandle == old(nextHandle) + 3
      ensures var sender := message.senderUserId;
        var ready := sender in old(peerConnections) || old(localStream).Some? || browser.mediaGranted;
        var start := if sender in old(peerConnections) then old(SlotOf(sender))
          else Slot(Some(NewConnection(old(nextHandle), if ready then Some(localStream.value.handle) else None)),
                    Some([]));
        && start.pc.Some?
        && SlotOf(sender) == (if ready && message.offer.Some? then Answered(start, message.offer.value, browser.answer) else start)
        && outbox == old(outbox) +
             if ready && message.offer.Some?
             then [Send(Addressed(Bare(Answer).(answer := Some(browser.answer)), sender, None))]
             else []
    {
      var senderUserId := message.senderUserId;
      incomingCall := true;
      // a rejected `getUserMedia` or a missing offer (the description
      // constructor throws) ends the handler early
      var ready := true;
      if senderUserId !in peerConnections {
        ready := CreatePeerConnection(senderUserId, Video, browser.mediaGranted);
      }
      if ready && message.offer.Some? {
        AnswerOffer(senderUserId, message.offer.value, browser.answer);
      }
    }

    /** The existing member calls the newcomer: a fresh connection and one offer. */
    method HandleUserJoined(message: Message, browser: Browser)
      requires Valid()
      modifies this`peerConnections, this`iceCandidateQueues, this`remoteStreams
      modifies this`localStream, this`nextHandle, this`outbox
      ensures Valid()
      ensures AgreeOutside(peerConnections, old(peerConnections), {message.userId})
      ensures AgreeOutside(iceCandidateQueues, old(iceCandidateQueues), {message.userId})
      ensures var s := SlotOf(message.userId);
        && s.pc.Some? && s.pc.value.handle == old(nextHandle)
        && s.pc.value.remoteDescription.None? && s.pc.value.applied == [] && s.queue == Some([])
      ensures var ok := old(localStream).Some? || browser.mediaGranted;
        && localStream == (if old(localStream).Some? then old(localStream)
             else if ok then Some(LocalStream(old(nextHandle) + 1, MediaConstraints(Video)))
             else None)
        && SlotOf(message.userId).pc.value.localTracks == (if ok then Some(localStream.value.handle) else None)
        && remoteStreams == (if ok then old(remoteStreams)[message.userId := old(nextHandle) + 2]
             else old(remoteStreams))
      ensures var ok := old(localStream).Some? || browser.mediaGranted;
        if ok then
          && SlotOf(message.userId).pc.value.localDescription == Some(browser.offer)
          && outbox == old(outbox) + [Send(Addressed(Bare(Offer).(offer := Some(browser.offer)), message.userId, None))]
        else
          && SlotOf(message.userId).pc.value.localDescription.None?
          && outbox == old(outbox)
    {
      var newUserId := message.userId;
      var ok := CreatePeerConnection(newUserId, Video, browser.mediaGranted);
      if !ok {
        return;
      }
      var peerConnection := peerConnections[newUserId];
      peerConnections := peerConnections[newUserId :=
        peerConnection.(localDescription := Some(browser.offer))];
      SendMessage(Bare(Offer).(offer := Some(browser.offer)), newUserId, None);
    }

    /** Closes and forgets the departed peer's connection, queue and remote
        stream, if a connection for it exists. */
    method HandleUserLeft(message: Message)
      requires Valid()
      modifies this`peerConnections, this`iceCandidateQueues, this`remoteStreams, this`closed
      ensures Valid()
      ensures var left := message.userId;
        if left in old(peerConnections) then
          && peerConnections == old(peerConnections) - {left}
          && iceCandidateQueues == old(iceCandidateQueues) - {left}
          && remoteStreams == old(remoteStreams) - {left}
          && closed == old(closed) + {old(peerConnections)[left].handle}
        else
          && peerConnections == old(peerConnections)
          && iceCandidateQueues == old(iceCandidateQueues)
          && remoteStreams == old(remoteStreams)
          && closed == old(closed)
    {
      var leftUserId := message.userId;
      if leftUserId in peerConnections {
        closed := closed + {peerConnections[leftUserId].handle};
        peerConnections := peerConnections - {leftUserId};
        iceCandidateQueues := iceCandidateQueues - {leftUserId};
        remoteStreams := remoteStreams - {leftUserId};
      }
    }

    /** Prepares a waiting connection for each member already in the room,
        without offering. A rejected `getUserMedia` ends the loop after the
        first connection. */
    method HandleExistingUsers(message: Message, browser: Browser)
      requires Valid()
      modifies this`peerConnections, this`iceCandidateQueues, this`remoteStreams
      modifies this`localStream, this`nextHandle
      ensures Valid()
      ensures var listed := set u | u in message.users :: Some(u);
        && AgreeOutside(peerConnections, old(peerConnections), listed)
        && AgreeOutside(iceCandidateQueues, old(iceCandidateQueues), listed)
      ensures var stalled := old(localStream).None? && !browser.mediaGranted;
        if stalled && |message.users| > 0 then
          && Unnegotiated(SlotOf(Some(message.users[0])))
          && AgreeOutside(peerConnections, old(peerConnections), {Some(message.users[0])})
          && AgreeOutside(iceCandidateQueues, old(iceCandidateQueues), {Some(message.users[0])})
        else
          forall u | u in message.users :: Unnegotiated(SlotOf(Some(u)))
    {
      var existingUsers := message.users;
      var i := 0;
      while i < |existingUsers|
        invariant 0 <= i <= |existingUsers|
        invariant Valid()
        invariant i > 0 ==> old(localStream).Some? || browser.mediaGranted
        invariant localStream.Some? ==> old(localStream).Some? || browser.mediaGranted
        invariant old(localStream).Some? ==> localStream == old(localStream)
        invariant forall j | 0 <= j < i ::
          Unnegotiated(SlotIn(peerConnections, iceCandidateQueues, Some(existingUsers[j])))
        invariant var done := set u | u in existingUsers[..i] :: Some(u);
          && AgreeOutside(peerConnections, old(peerConnections), done)
          && AgreeOutside(iceCandidateQueues, old(iceCandidateQueues), done)
      {
        var key: Key := Some(existingUsers[i]);
        ghost var pcs, queues := peerConnections, iceCandidateQueues;
        var ok := CreatePeerConnection(key, Video, browser.mediaGranted);
        forall j | 0 <= j <= i
          ensures Unnegotiated(SlotIn(peerConnections, iceCandidateQueues, Some(existingUsers[j])))
        {
          var k := Some(existingUsers[j]);
          if k == key {
            assert SlotIn(peerConnections, iceCandidateQueues, k) == SlotOf(key);
          } else {
            assert k !in {key};
            assert SlotIn(peerConnections, iceCandidateQueues, k) == SlotIn(pcs, queues, k);
          }
        }
        if !ok {
          return;
        }
        i := i + 1;
      }
    }

    /** The client's `register` emit; it fires only for a non-empty id while the
        socket reports itself disconnected. */
    method InitializeSocket(connected: bool)
      modifies this`outbox
      ensures outbox == old(outbox) + if userId != "" && !connected then [Register(userId)] else []
    {
      if userId != "" && !connected {
        outbox := outbox + [Register(userId)];
      }
    }

    /** Joins a room and acquires the local stream for `mode` if none is held. */
    method Call(roomId: string, mode: Mode, granted: bool)
      modifies this`currentRoomId, this`outbox, this`localStream, this`nextHandle
      ensures currentRoomId == Some(roomId)
      ensures outbox == old(outbox) + [JoinRoom(userId, roomId)]
      ensures localStream ==
        if old(localStream).Some? then old(localStream)
        else if granted then Some(LocalStream(old(nextHandle), MediaConstraints(mode)))
        else None
    {
      currentRoomId := Some(roomId);
      outbox := outbox + [JoinRoom(userId, roomId)];
      if localStream.None? {
        var mediaConstraints := MediaConstraints(mode);
        if granted {
          localStream := Some(LocalStream(nextHandle, mediaConstraints));
          nextHandle := nextHandle + 1;
        }
      }
    }

    /** Full hang-up. */
    method Disconnect()
      requires Valid()
      modifies this`localStream, this`stopped, this`closed, this`peerConnections
      modifies this`iceCandidateQueues, this`remoteStreams, this`currentRoomId
      modifies this`outbox, this`incomingCall
      ensures Valid()
      ensures peerConnections == map[] && iceCandidateQueues == map[] && remoteStreams == map[]
      ensures localStream.None?
      ensures stopped == old(stopped) + if old(localStream).Some? then {old(localStream).value.handle} else {}
      ensures closed == old(closed) + Handles(old(peerConnections))
      ensures !incomingCall
      ensures var room := old(currentRoomId);
        if room.Some? && room.value != "" then
          outbox == old(outbox) + [LeaveRoom(userId, room.value)] && currentRoomId.None?
        else
          outbox == old(outbox) && currentRoomId == room
    {
      if localStream.Some? {
        stopped := stopped + {localStream.value.handle};
        localStream := None;
      }
      closed := closed + Handles(peerConnections);
      peerConnections := map[];
      iceCandidateQueues := map[];
      remoteStreams := map[];
      if currentRoomId.Some? && currentRoomId.value != "" {
        outbox := outbox + [LeaveRoom(userId, currentRoomId.value)];
        currentRoomId := None;
      }
      incomingCall := false;
    }

    /** A `disconnect` message: tears everything down only when exactly one
        peer is connected; it neither leaves the room nor emits anything. */
    method HandleDisconnect()
      requires Valid()
      modifies this`localStream, this`stopped, this`closed, this`peerConnections
      modifies this`iceCandidateQueues, this`remoteStreams, this`incomingCall
      ensures Valid()
      ensures if |old(peerConnections)| == 1 then
          && peerConnections == map[] && iceCandidateQueues == map[] && remoteStreams == map[]
          && closed == old(closed) + Handles(old(peerConnections))
          && localStream.None?
          && stopped == old(stopped) + (if old(localStream).Some? then {old(localStream).value.handle} else {})
          && !incomingCall
        else
          && peerConnections == old(peerConnections) && iceCandidateQueues == old(iceCandidateQueues)
          && remoteStreams == old(remoteStreams) && closed == old(closed)
          && localStream == old(localStream) && stopped == old(stopped)
          && incomingCall == old(incomingCall)
    {
      if |peerConnections| == 1 {
        closed := closed + Handles(peerConnections);
        peerConnections := map[];
        iceCandidateQueues := map[];
        remoteStreams := map[];
        if localStream.Some? {
          stopped := stopped + {localStream.value.handle};
          localStream := None;
        }
        incomingCall := false;
      }
    }

    /** The socket's `message` listener: dispatch on `type`; an unknown type
        changes nothing. */
    method HandleMessage(message: Message, browser: Browser)
      requires Valid()
      modifies this
      ensures Valid()
      ensures message.kind.Unrecognised? ==> unchanged(this)
      ensures userId == old(userId) && currentRoomId == old(currentRoomId)
      ensures incomingCall != old(incomingCall) ==>
        (message.kind.Offer? && incomingCall) || (message.kind.Disconnect? && !incomingCall)
    {
      match message.kind
      case Offer => HandleOffer(message, browser);
      case Answer => HandleAnswer(message);
      case Candidate => HandleCandidate(message);
      case Disconnect => HandleDisconnect();
      case UserJoined => HandleUserJoined(message, browser);
      case UserLeft => HandleUserLeft(message);
      case ExistingUsers => HandleExistingUsers(message, browser);
      case Unrecognised(_) =>
    }
  }
}
