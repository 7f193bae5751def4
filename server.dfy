/** The signaling relay: the `users` table of the socket.io server and its
    `register`, `disconnect` and `message` handlers. The server keeps no rooms:
    `join_room` and `leave_room` reach it and are ignored. */
module Server {
  import opened Signal

  type UserId = string

  /** A socket.io session id. These are never empty, so the relay's truthiness
      test `if (remoteSocketId)` holds exactly when the lookup found a binding. */
  type SocketId = s: string | s != "" witness "socket"

  /** The plain object `users`: its own properties, and the order in which
      `for...in` visits them (insertion order; reassigning a property keeps
      its place). */
  datatype Users = Users(bound: map<UserId, SocketId>, order: seq<UserId>)

  /** One `io.to(socket).emit('message', ...)`. */
  datatype Delivery = Delivery(to: SocketId, message: Message)

  /** One `register` event: the id sent and the socket it came from. */
  datatype Registration = Registration(userId: UserId, socket: SocketId)

  predicate Distinct(ids: seq<UserId>)
  {
    forall i, j :: 0 <= i < j < |ids| ==> ids[i] != ids[j]
  }

  /** Every property is visited exactly once. */
  ghost predicate WellFormed(u: Users)
  {
    Distinct(u.order) && forall k :: k in u.bound <==> k in u.order
  }

  /** The property name JavaScript reads for `users[x]`: an absent field is
      converted to the string "undefined". */
  function PropertyKey(field: Option<string>): (k: string)
    ensures field.Some? ==> k == field.value
    ensures k == "undefined" <==> field == None || field == Some("undefined")
  {
    match field
    case None => "undefined"
    case Some(k) => k
  }

  function Lookup(u: Users, key: string): Option<SocketId>
  {
    if key in u.bound then Some(u.bound[key]) else None
  }

  /** The `i`-th id visited is bound to socket `s`. */
  predicate BoundAt(u: Users, i: int, s: SocketId)
    requires 0 <= i < |u.order|
  {
    u.order[i] in u.bound && u.bound[u.order[i]] == s
  }

  /** Where a `for...in` scan that stops at the first id bound to `s` stops. */
  function FirstBoundTo(u: Users, s: SocketId): (r: Option<nat>)
    ensures r.Some? ==> r.value < |u.order| && BoundAt(u, r.value, s)
    ensures forall j :: 0 <= j < |u.order| && (r.None? || j < r.value) ==> !BoundAt(u, j, s)
    decreases |u.order|
  {
    if u.order == [] then None
    else if BoundAt(u, 0, s) then Some(0)
    else
      var tail := Users(u.bound, u.order[1..]);
      match FirstBoundTo(tail, s)
      case None =>
        assert forall j :: 1 <= j < |u.order| ==> BoundAt(u, j, s) == BoundAt(tail, j - 1, s);
        None
      case Some(i) =>
        assert forall j :: 1 <= j < |u.order| ==> BoundAt(u, j, s) == BoundAt(tail, j - 1, s);
        Some(i + 1)
  }

  /** The id a socket is known by: the first id, in visiting order, bound to it. */
  function SenderOf(u: Users, s: SocketId): (r: Option<UserId>)
    ensures r.Some? ==> r.value in u.bound && u.bound[r.value] == s
    ensures r.Some? ==> exists i :: 0 <= i < |u.order| && u.order[i] == r.value &&
                                    forall j :: 0 <= j < i ==> !BoundAt(u, j, s)
    ensures WellFormed(u) ==> (r.None? <==> forall k :: k in u.bound ==> u.bound[k] != s)
  {
    match FirstBoundTo(u, s)
    case None =>
      assert WellFormed(u) ==> forall k :: k in u.bound ==> u.bound[k] != s by {
        if WellFormed(u) {
          forall k | k in u.bound ensures u.bound[k] != s {
            var i :| 0 <= i < |u.order| && u.order[i] == k;
            assert !BoundAt(u, i, s);
          }
        }
      }
      None
    case Some(i) => Some(u.order[i])
  }

  /** `users[userId] = socket.id`. */
  function Register(u: Users, id: UserId, s: SocketId): (r: Users)
    ensures Lookup(r, id) == Some(s)
    ensures forall k :: k != id ==> Lookup(r, k) == Lookup(u, k)
    ensures |u.order| <= |r.order| <= |u.order| + 1 && r.order[..|u.order|] == u.order
  {
    Users(u.bound[id := s], if id in u.bound then u.order else u.order + [id])
  }

  /** The `disconnect` handler: delete the first id bound to the socket, if any. */
  function Disconnected(u: Users, s: SocketId): (r: Users)
    ensures r.bound.Keys <= u.bound.Keys
    ensures forall k | k in r.bound :: r.bound[k] == u.bound[k]
    ensures forall k | k in u.bound && u.bound[k] != s :: k in r.bound
  {
    match FirstBoundTo(u, s)
    case None => u
    case Some(i) => Users(u.bound - {u.order[i]}, u.order[..i] + u.order[i + 1..])
  }

  /** The `message` handler: at most one delivery, to the socket bound to
      `remoteUserId`, carrying the message with `remoteUserId` replaced by the
      sender's id (absent if the sending socket never registered). */
  function Forwarded(u: Users, from: SocketId, m: Message): (d: Option<Delivery>)
    ensures d.None? <==> PropertyKey(m.remoteUserId) !in u.bound
    ensures d.Some? ==>
      && d.value.to == u.bound[PropertyKey(m.remoteUserId)]
      && d.value.message.remoteUserId == SenderOf(u, from)
      && d.value.message.(remoteUserId := m.remoteUserId) == m
  {
    match Lookup(u, PropertyKey(m.remoteUserId))
    case None => None
    case Some(to) => Some(Delivery(to, m.(remoteUserId := SenderOf(u, from))))
  }

  function Deliveries(d: Option<Delivery>): seq<Delivery>
  {
    match d
    case None => []
    case Some(x) => [x]
  }

  lemma RegisterBinds(u: Users, id: UserId, s: SocketId)
    requires WellFormed(u)
    ensures var r := Register(u, id, s);
      && WellFormed(r)
      && (|r.order| == |u.order| <==> id in u.bound)
  {
    var r := Register(u, id, s);
    if id !in u.bound {
      assert id !in u.order;
      forall i, j | 0 <= i < j < |r.order| ensures r.order[i] != r.order[j] {
        if j == |u.order| {
          assert r.order[i] == u.order[i];
        }
      }
    }
  }

  /** Applying registrations in arrival order. */
  function RegisterAll(u: Users, regs: seq<Registration>): Users
    decreases |regs|
  {
    if regs == [] then u
    else
      var last := regs[|regs| - 1];
      Register(RegisterAll(u, regs[..|regs| - 1]), last.userId, last.socket)
  }

  /** The socket of the latest registration of `id` among `regs`. */
  function LastRegistration(regs: seq<Registration>, id: UserId): Option<SocketId>
    decreases |regs|
  {
    if regs == [] then None
    else if regs[|regs| - 1].userId == id then Some(regs[|regs| - 1].socket)
    else LastRegistration(regs[..|regs| - 1], id)
  }

  lemma {:induction false} LastRegisterWins(u: Users, regs: seq<Registration>, id: UserId)
    ensures Lookup(RegisterAll(u, regs), id) ==
            if LastRegistration(regs, id).Some? then LastRegistration(regs, id) else Lookup(u, id)
    ensures WellFormed(u) ==> WellFormed(RegisterAll(u, regs))
    decreases |regs|
  {
    if regs != [] {
      var prefix := regs[..|regs| - 1];
      var last := regs[|regs| - 1];
      LastRegisterWins(u, prefix, id);
      if WellFormed(u) {
        RegisterBinds(RegisterAll(u, prefix), last.userId, last.socket);
      }
    }
  }

  lemma RemoveAtKeepsDistinct(ids: seq<UserId>, i: nat)
    requires Distinct(ids) && i < |ids|
    ensures var rest := ids[..i] + ids[i + 1..];
      Distinct(rest) && forall k :: k in rest <==> k in ids && k != ids[i]
  {
    var rest := ids[..i] + ids[i + 1..];
    forall a, b | 0 <= a < b < |rest| ensures rest[a] != rest[b] {
      var a' := if a < i then a else a + 1;
      var b' := if b < i then b else b + 1;
      assert rest[a] == ids[a'] && rest[b] == ids[b'];
    }
    forall k ensures k in rest <==> k in ids && k != ids[i] {
      if k in ids && k != ids[i] {
        var j :| 0 <= j < |ids| && ids[j] == k;
        assert rest[if j < i then j else j - 1] == k;
      }
    }
  }

  lemma DisconnectRemovesFirstBinding(u: Users, s: SocketId)
    requires WellFormed(u)
    ensures var r := Disconnected(u, s);
      && WellFormed(r)
      && match SenderOf(u, s)
         case None => r == u
         case Some(id) =>
           && r.bound == u.bound - {id}
           && |r.bound| == |u.bound| - 1
           && Lookup(r, id).None?
           && (forall k :: k != id ==> Lookup(r, k) == Lookup(u, k))
    ensures var r := Disconnected(u, s);
      match FirstBoundTo(u, s)
      case None => r.order == u.order
      case Some(i) => r.order == u.order[..i] + u.order[i + 1..]
  {
    match FirstBoundTo(u, s)
    case None =>
      assert Disconnected(u, s) == u;
    case Some(i) =>
      RemoveEntryAt(u, i);
      assert SenderOf(u, s) == Some(u.order[i]);
      assert Disconnected(u, s) == Users(u.bound - {u.order[i]}, u.order[..i] + u.order[i + 1..]);
  }

  /** Deleting the `i`-th visited id from a well-formed table. */
  lemma RemoveEntryAt(u: Users, i: nat)
    requires WellFormed(u) && i < |u.order|
    ensures var id := u.order[i];
      var r := Users(u.bound - {id}, u.order[..i] + u.order[i + 1..]);
      && WellFormed(r)
      && |r.bound| == |u.bound| - 1
  {
    var id := u.order[i];
    var r := Users(u.bound - {id}, u.order[..i] + u.order[i + 1..]);
    RemoveAtKeepsDistinct(u.order, i);
    assert r.bound.Keys == u.bound.Keys - {id};
    assert |r.bound| == |r.bound.Keys| == |u.bound.Keys| - 1;
  }

  lemma DisconnectOfUnboundSocketIsNoOp(u: Users, s: SocketId)
    requires forall k :: k in u.bound ==> u.bound[k] != s
    ensures Disconnected(u, s) == u
  {
  }

  /** One socket may register several ids; closing it removes only the first,
      and the later id stays bound to the dead socket. */
  lemma SecondIdOutlivesItsSocket()
    ensures var u := Register(Register(Users(map[], []), "alice", "s1"), "bob", "s1");
      Lookup(Disconnected(u, "s1"), "bob") == Some("s1")
      && Lookup(Disconnected(u, "s1"), "alice").None?
  {
    var u := Register(Register(Users(map[], []), "alice", "s1"), "bob", "s1");
    assert u.order == ["alice", "bob"];
    assert FirstBoundTo(u, "s1") == Some(0);
  }

  /** The socket.io server's state and its three event handlers. */
  class RelayServer {
    var users: Users
    /** Every message emitted so far, in order. */
    var outbox: seq<Delivery>

    ghost predicate Valid()
      reads this
    {
      WellFormed(users)
    }

    constructor ()
      ensures Valid() && users == Users(map[], []) && outbox == []
    {
      users := Users(map[], []);
      outbox := [];
    }

    method OnRegister(socket: SocketId, userId: UserId)
      requires Valid()
      modifies this`users
      ensures Valid()
      ensures users == Register(old(users), userId, socket)
    {
      RegisterBinds(users, userId, socket);
      users := Register(users, userId, socket);
    }

    method OnDisconnect(socket: SocketId)
      requires Valid()
      modifies this`users
      ensures Valid()
      ensures users == Disconnected(old(users), socket)
    {
      var i := 0;
      while i < |users.order|
        invariant 0 <= i <= |users.order|
        invariant users == old(users)
        invariant forall j :: 0 <= j < i ==> !BoundAt(users, j, socket)
      {
        var userId := users.order[i];
        if users.bound[userId] == socket {
          assert BoundAt(users, i, socket);
          assert FirstBoundTo(users, socket) == Some(i);
          RemoveAtKeepsDistinct(users.order, i);
          users := Users(users.bound - {userId}, users.order[..i] + users.order[i + 1..]);
          break;
        }
        i := i + 1;
      }
    }

    method OnMessage(socket: SocketId, message: Message)
      requires Valid()
      modifies this`outbox
      ensures outbox == old(outbox) + Deliveries(Forwarded(users, socket, message))
    {
      var key := PropertyKey(message.remoteUserId);
      if key in users.bound {
        var remoteSocketId := users.bound[key];
        var senderUserId: Option<UserId> := None;
        var i := 0;
        while i < |users.order|
          invariant 0 <= i <= |users.order|
          invariant forall j :: 0 <= j < i ==> !BoundAt(users, j, socket)
        {
          var userId := users.order[i];
          if users.bound[userId] == socket {
            assert BoundAt(users, i, socket);
            assert FirstBoundTo(users, socket) == Some(i);
            senderUserId := Some(userId);
            break;
          }
          i := i + 1;
        }
        assert senderUserId == SenderOf(users, socket);
        outbox := outbox + [Delivery(remoteSocketId, message.(remoteUserId := senderUserId))];
      }
    }
  }
}
