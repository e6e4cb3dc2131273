/**
 * Room presence bookkeeping of backend/server.js:24-93: `userSocketMap`, the
 * socket.io adapter's room membership, `getAllClients`, and the JOIN,
 * CODE_CHANGE, SYNC_CODE and `disconnecting` handlers. Emitted events are
 * returned as a list of (recipient, event) pairs in emission order.
 */
module Presence {
  import opened Wrappers

  type SocketId = string
  type RoomId = string

  /** The record `userSocketMap` holds per socket. */
  datatype User = User(username: string, email: string)

  /** One entry of `getAllClients`; a socket without a record reads as `undefined` (`None`). */
  datatype Client = Client(socketId: SocketId, username: Option<string>, email: Option<string>)

  datatype Event =
    | JoinError(message: string)
    | Joined(clients: seq<Client>, username: string, email: string, socketId: SocketId)
    | CodeChange(code: string)
    | Disconnected(socketId: SocketId, leftUsername: Option<string>, leftEmail: Option<string>)

  datatype Emit = Emit(recipient: SocketId, event: Event)

  /**
   * `userSocketMap` together with the adapter's two indexes: the members of
   * each room and the rooms of each socket, both in joining order (socket.io
   * keeps them in insertion-ordered sets).
   */
  datatype State = State(users: map<SocketId, User>, rooms: map<RoomId, seq<SocketId>>, joined: map<SocketId, seq<RoomId>>)

  const EmailTakenMessage: string := "A user with this email is already in the room."

  predicate NoDuplicates<T(==)>(xs: seq<T>) {
    forall i, j :: 0 <= i < j < |xs| ==> xs[i] != xs[j]
  }

  /** `io.sockets.adapter.rooms.get(roomId) || []`. */
  function Members(st: State, roomId: RoomId): (ms: seq<SocketId>)
    ensures roomId in st.rooms ==> ms == st.rooms[roomId]
    ensures roomId !in st.rooms ==> ms == []
  {
    if roomId in st.rooms then st.rooms[roomId] else []
  }

  /** `socket.rooms` (without the socket's own private room). */
  function RoomsOf(st: State, socket: SocketId): (rs: seq<RoomId>)
    ensures socket in st.joined ==> rs == st.joined[socket]
    ensures socket !in st.joined ==> rs == []
  {
    if socket in st.joined then st.joined[socket] else []
  }

  /** The two indexes agree, hold no duplicates, and every room member has a record. */
  ghost predicate Valid(st: State) {
    && (forall r :: r in st.rooms ==> NoDuplicates(st.rooms[r]))
    && (forall s :: s in st.joined ==> NoDuplicates(st.joined[s]))
    && (forall r, s :: s in Members(st, r) <==> r in RoomsOf(st, s))
    && (forall r, s :: s in Members(st, r) ==> s in st.users)
  }

  /** In a valid state `socket.rooms` lists, once each, exactly the rooms whose members include the socket. */
  lemma RoomsOfAgreesWithMembers(st: State, socket: SocketId)
    requires Valid(st)
    ensures NoDuplicates(RoomsOf(st, socket))
    ensures forall r :: r in RoomsOf(st, socket) <==> socket in Members(st, r)
  {
  }

  /** Insertion into an insertion-ordered set: a present element keeps its place. */
  function AddMember(xs: seq<string>, x: string): (r: seq<string>)
    ensures x in r && forall y :: y in r <==> y in xs || y == x
    ensures NoDuplicates(xs) ==> NoDuplicates(r)
    ensures x in xs ==> r == xs
    ensures x !in xs ==> r == xs + [x]
  {
    if x in xs then xs else xs + [x]
  }

  /** Deletion from an insertion-ordered set: the others keep their order. */
  function RemoveMember(xs: seq<string>, x: string): (r: seq<string>)
    ensures x !in r && forall y :: y in r <==> y in xs && y != x
    ensures NoDuplicates(xs) ==> NoDuplicates(r)
    ensures x !in xs ==> r == xs
  {
    if xs == [] then []
    else if xs[0] == x then RemoveMember(xs[1..], x)
    else
      var rest := RemoveMember(xs[1..], x);
      assert NoDuplicates(xs) ==> xs[0] !in xs[1..];
      [xs[0]] + rest
  }

  /** `s` is `t` with some elements dropped, the rest in their original order. */
  ghost predicate Subsequence(s: seq<string>, t: seq<string>)
    decreases |t|
  {
    if s == [] then true
    else if t == [] then false
    else if s[0] == t[0] then Subsequence(s[1..], t[1..])
    else Subsequence(s, t[1..])
  }

  /** Deleting from an insertion-ordered set keeps the other members in their order. */
  lemma {:induction false} RemoveMemberKeepsOrder(xs: seq<string>, x: string)
    ensures Subsequence(RemoveMember(xs, x), xs)
  {
    if xs != [] {
      RemoveMemberKeepsOrder(xs[1..], x);
      var rest := RemoveMember(xs[1..], x);
      if xs[0] != x {
        assert RemoveMember(xs, x) == [xs[0]] + rest;
        assert ([xs[0]] + rest)[1..] == rest;
      } else if rest != [] {
        assert rest[0] != xs[0];
      }
    }
  }

  function ClientOf(st: State, socket: SocketId): (c: Client)
    ensures c.socketId == socket
    ensures c.username == (if socket in st.users then Some(st.users[socket].username) else None)
    ensures c.email == (if socket in st.users then Some(st.users[socket].email) else None)
  {
    if socket in st.users then Client(socket, Some(st.users[socket].username), Some(st.users[socket].email))
    else Client(socket, None, None)
  }

  /** `getAllClients(roomId)`: one record per member, in membership order. */
  function AllClients(st: State, roomId: RoomId): (cs: seq<Client>)
    ensures |cs| == |Members(st, roomId)|
    ensures forall i :: 0 <= i < |cs| ==> cs[i] == ClientOf(st, Members(st, roomId)[i])
    ensures roomId !in st.rooms ==> cs == []
  {
    var members := Members(st, roomId);
    seq(|members|, i requires 0 <= i < |members| => ClientOf(st, members[i]))
  }

  /** `clients.some(client => client.email === email)`. */
  function EmailTaken(clients: seq<Client>, email: string): (taken: bool)
    ensures taken <==> exists c :: c in clients && c.email == Some(email)
  {
    exists i :: 0 <= i < |clients| && clients[i].email == Some(email)
  }

  /** Some member of `roomId` has `email` on record. */
  lemma EmailTakenByMember(st: State, roomId: RoomId, email: string)
    ensures EmailTaken(AllClients(st, roomId), email) <==>
      exists s :: s in Members(st, roomId) && s in st.users && st.users[s].email == email
  {
    var members := Members(st, roomId);
    var cs := AllClients(st, roomId);
    if s :| s in members && s in st.users && st.users[s].email == email {
      var i :| 0 <= i < |members| && members[i] == s;
      assert cs[i].email == Some(email);
    }
  }

  /** The state after an admitted JOIN: the record is set and the socket joins the room. */
  function Admit(st: State, socket: SocketId, roomId: RoomId, user: User): (st': State)
    ensures st'.users == st.users[socket := user]
    ensures socket in Members(st', roomId) && roomId in RoomsOf(st', socket)
    ensures forall r :: r != roomId ==> Members(st', r) == Members(st, r)
    ensures forall s :: s != socket ==> RoomsOf(st', s) == RoomsOf(st, s)
    ensures forall s :: s in Members(st', roomId) <==> s in Members(st, roomId) || s == socket
  {
    State(st.users[socket := user],
          st.rooms[roomId := AddMember(Members(st, roomId), socket)],
          st.joined[socket := AddMember(RoomsOf(st, socket), roomId)])
  }

  /** The state after `disconnecting`: the record is deleted and the socket leaves every room. */
  function Leave(st: State, socket: SocketId): (st': State)
    ensures st'.users == st.users - {socket}
    ensures forall r :: socket !in Members(st', r)
    ensures forall r :: Members(st', r) == RemoveMember(Members(st, r), socket)
    ensures RoomsOf(st', socket) == []
    ensures forall s :: s != socket ==> RoomsOf(st', s) == RoomsOf(st, s)
  {
    State(st.users - {socket},
          map r | r in st.rooms :: RemoveMember(st.rooms[r], socket),
          st.joined - {socket})
  }

  lemma AdmitPreservesValid(st: State, socket: SocketId, roomId: RoomId, user: User)
    requires Valid(st)
    ensures Valid(Admit(st, socket, roomId, user))
  {
    var st' := Admit(st, socket, roomId, user);
    forall r, s
      ensures s in Members(st', r) <==> r in RoomsOf(st', s)
    {
      if r == roomId && s == socket {
      } else if r == roomId {
        assert s in Members(st', r) <==> s in Members(st, r);
      } else if s == socket {
        assert r in RoomsOf(st', s) <==> r in RoomsOf(st, s);
      }
    }
  }

  lemma LeavePreservesValid(st: State, socket: SocketId)
    requires Valid(st)
    ensures Valid(Leave(st, socket))
  {
  }

  /** `socket.in(roomId).emit(event)`: every member of the room except the sender, in membership order. */
  function Relay(members: seq<SocketId>, sender: SocketId, event: Event): (out: seq<Emit>)
    ensures forall e :: e in out ==> e.event == event && e.recipient != sender && e.recipient in members
    ensures forall m :: m in members && m != sender ==> Emit(m, event) in out
    ensures NoDuplicates(members) ==> |out| == |RemoveMember(members, sender)|
  {
    if members == [] then []
    else if members[0] == sender then Relay(members[1..], sender, event)
    else [Emit(members[0], event)] + Relay(members[1..], sender, event)
  }

  /** The JOINED fan-out: every listed client receives the same event. */
  function JoinedEvents(clients: seq<Client>, username: string, email: string, socket: SocketId): (out: seq<Emit>)
    ensures |out| == |clients|
    ensures forall i :: 0 <= i < |out| ==>
      out[i] == Emit(clients[i].socketId, Joined(clients, username, email, socket))
  {
    seq(|clients|, i requires 0 <= i < |clients| => Emit(clients[i].socketId, Joined(clients, username, email, socket)))
  }

  /**
   * After an admitted JOIN every member of the updated room, the joiner
   * included, is sent JOINED with the updated client list and the joiner's id.
   */
  lemma JoinedReachesEveryMember(st: State, socket: SocketId, roomId: RoomId, user: User)
    ensures var st' := Admit(st, socket, roomId, user);
      var clients := AllClients(st', roomId);
      var out := JoinedEvents(clients, user.username, user.email, socket);
      && socket in Members(st', roomId)
      && (forall m :: m in Members(st', roomId) ==> Emit(m, Joined(clients, user.username, user.email, socket)) in out)
      && (forall e :: e in out ==> e.recipient in Members(st', roomId))
  {
    var st' := Admit(st, socket, roomId, user);
    var members := Members(st', roomId);
    var clients := AllClients(st', roomId);
    var out := JoinedEvents(clients, user.username, user.email, socket);
    forall m | m in members
      ensures Emit(m, Joined(clients, user.username, user.email, socket)) in out
    {
      var i :| 0 <= i < |members| && members[i] == m;
      assert out[i].recipient == m;
    }
    forall e | e in out
      ensures e.recipient in members
    {
      var i :| 0 <= i < |out| && out[i] == e;
      assert e.recipient == members[i];
    }
  }

  /** `event` to every other member of each room in `rs`, room by room. */
  function Fanout(st: State, rs: seq<RoomId>, socket: SocketId, event: Event): (out: seq<Emit>)
    ensures forall e :: e in out ==> e.event == event && e.recipient != socket
  {
    if rs == [] then []
    else Fanout(st, rs[..|rs| - 1], socket, event) + Relay(Members(st, rs[|rs| - 1]), socket, event)
  }

  /**
   * The fan-out reaches exactly the other members of the listed rooms: every
   * emission goes to a member of one of them other than the sender, and every
   * such member is sent the event.
   */
  lemma {:induction false} FanoutReachesRoommates(st: State, rs: seq<RoomId>, socket: SocketId, event: Event)
    ensures forall e :: e in Fanout(st, rs, socket, event) ==>
      e.event == event && e.recipient != socket && exists r :: r in rs && e.recipient in Members(st, r)
    ensures forall r, m :: r in rs && m in Members(st, r) && m != socket ==> Emit(m, event) in Fanout(st, rs, socket, event)
  {
    if rs != [] {
      var init, last := rs[..|rs| - 1], rs[|rs| - 1];
      FanoutReachesRoommates(st, init, socket, event);
      assert forall r :: r in rs <==> r in init || r == last;
    }
  }

  /** The event `disconnecting` sends, carrying the record as it was before deletion. */
  function DisconnectedEvent(st: State, socket: SocketId): (e: Event)
    ensures e.Disconnected? && e.socketId == socket
    ensures socket in st.users ==>
      e.leftUsername == Some(st.users[socket].username) && e.leftEmail == Some(st.users[socket].email)
    ensures socket !in st.users ==> e.leftUsername.None? && e.leftEmail.None?
  {
    var c := ClientOf(st, socket);
    Disconnected(socket, c.username, c.email)
  }

  /** Each room's `email` values are pairwise distinct. */
  ghost predicate UniqueEmails(st: State) {
    forall r, i, j :: 0 <= i < j < |Members(st, r)| ==>
      ClientOf(st, Members(st, r)[i]).email != ClientOf(st, Members(st, r)[j]).email
  }

  /** Every socket belongs to at most the one room. */
  ghost predicate OnlyRoom(st: State, socket: SocketId, roomId: RoomId) {
    forall r :: r in RoomsOf(st, socket) ==> r == roomId
  }

  /**
   * The admission check keeps each room's emails distinct, as long as the
   * joining socket is in no other room (as the editor client does: one JOIN
   * per connection). A socket that sits in a second room could otherwise
   * change its email there under the first room's feet.
   */
  lemma AdmitKeepsEmailsUnique(st: State, socket: SocketId, roomId: RoomId, user: User)
    requires Valid(st) && UniqueEmails(st)
    requires OnlyRoom(st, socket, roomId)
    requires !EmailTaken(AllClients(st, roomId), user.email)
    ensures UniqueEmails(Admit(st, socket, roomId, user))
  {
    var st' := Admit(st, socket, roomId, user);
    EmailTakenByMember(st, roomId, user.email);
    forall r, i, j | 0 <= i < j < |Members(st', r)|
      ensures ClientOf(st', Members(st', r)[i]).email != ClientOf(st', Members(st', r)[j]).email
    {
      var ms, ms' := Members(st, r), Members(st', r);
      var a, b := ms'[i], ms'[j];
      assert a in ms' && b in ms';
      assert Valid(st');
      if r == roomId {
        assert NoDuplicates(ms') by {
          AdmitPreservesValid(st, socket, roomId, user);
        }
        assert a != b;
        if a == socket {
          assert b in ms && b in st.users;
        } else if b == socket {
          assert a in ms && a in st.users;
        } else {
          assert j < |ms| && a == ms[i] && b == ms[j];
          assert ClientOf(st, ms[i]).email != ClientOf(st, ms[j]).email;
        }
      } else {
        assert ms' == ms;
        assert a != socket && b != socket by {
          assert r in RoomsOf(st, a) && r in RoomsOf(st, b);
        }
        assert ClientOf(st, ms[i]).email != ClientOf(st, ms[j]).email;
      }
    }
  }

  /** Without the one-room condition the property fails: a concrete run. */
  lemma SecondRoomJoinCanDuplicateEmail()
    ensures var st := State(map["a" := User("ann", "x@e"), "b" := User("bob", "y@e")],
                            map["r1" := ["a", "b"]],
                            map["a" := ["r1"], "b" := ["r1"]]);
      && Valid(st) && UniqueEmails(st)
      && !EmailTaken(AllClients(st, "r2"), "y@e")
      && !UniqueEmails(Admit(st, "a", "r2", User("ann", "y@e")))
  {
    var st := State(map["a" := User("ann", "x@e"), "b" := User("bob", "y@e")],
                    map["r1" := ["a", "b"]],
                    map["a" := ["r1"], "b" := ["r1"]]);
    var st' := Admit(st, "a", "r2", User("ann", "y@e"));
    assert "r1" in st'.rooms && st'.rooms["r1"] == ["a", "b"];
    var ms := Members(st', "r1");
    assert ms[0] == "a" && ms[1] == "b";
    assert ClientOf(st', ms[0]).email == Some("y@e") == ClientOf(st', ms[1]).email;
  }

  /** Leaving keeps each room's emails distinct. */
  lemma LeaveKeepsEmailsUnique(st: State, socket: SocketId)
    requires Valid(st) && UniqueEmails(st)
    ensures UniqueEmails(Leave(st, socket))
  {
    var st' := Leave(st, socket);
    forall r, i, j | 0 <= i < j < |Members(st', r)|
      ensures ClientOf(st', Members(st', r)[i]).email != ClientOf(st', Members(st', r)[j]).email
    {
      var ms, ms' := Members(st, r), Members(st', r);
      var a, b := ms'[i], ms'[j];
      assert a in ms' && b in ms';
      LeavePreservesValid(st, socket);
      assert a != b;
      var i0 :| 0 <= i0 < |ms| && ms[i0] == a;
      var j0 :| 0 <= j0 < |ms| && ms[j0] == b;
      if i0 < j0 {
        assert ClientOf(st, ms[i0]).email != ClientOf(st, ms[j0]).email;
      } else {
        assert ClientOf(st, ms[j0]).email != ClientOf(st, ms[i0]).email;
      }
    }
  }

  /** The JOINED loop: one emission per listed client, in list order. */
  method Announce(clients: seq<Client>, username: string, email: string, socket: SocketId) returns (out: seq<Emit>)
    ensures out == JoinedEvents(clients, username, email, socket)
  {
    out := [];
    var i := 0;
    while i < |clients|
      invariant 0 <= i <= |clients|
      invariant |out| == i
      invariant forall k :: 0 <= k < i ==>
        out[k] == Emit(clients[k].socketId, Joined(clients, username, email, socket))
    {
      out := out + [Emit(clients[i].socketId, Joined(clients, username, email, socket))];
      i := i + 1;
    }
  }

  /** The DISCONNECTED loop: a broadcast into each listed room, room by room. */
  method NotifyRooms(st: State, rs: seq<RoomId>, socket: SocketId, event: Event) returns (out: seq<Emit>)
    ensures out == Fanout(st, rs, socket, event)
  {
    out := [];
    var i := 0;
    while i < |rs|
      invariant 0 <= i <= |rs|
      invariant out == Fanout(st, rs[..i], socket, event)
    {
      assert rs[..i + 1][..i] == rs[..i];
      out := out + Relay(Members(st, rs[i]), socket, event);
      i := i + 1;
    }
    assert rs[..i] == rs;
  }

  /**
   * The server's presence state, updated in place by the socket handlers:
   * `userSocketMap` and the adapter's two membership indexes.
   */
  class RoomServer {
    var userSocketMap: map<SocketId, User>
    var rooms: map<RoomId, seq<SocketId>>
    var socketRooms: map<SocketId, seq<RoomId>>

    function Snapshot(): State
      reads this
    {
      State(userSocketMap, rooms, socketRooms)
    }

    ghost predicate Consistent()
      reads this
    {
      Valid(Snapshot())
    }

    constructor ()
      ensures Snapshot() == State(map[], map[], map[])
      ensures Consistent()
    {
      userSocketMap := map[];
      rooms := map[];
      socketRooms := map[];
    }

    /** The JOIN handler. */
    method OnJoin(socket: SocketId, roomId: RoomId, username: string, email: string) returns (out: seq<Emit>)
      requires Consistent()
      modifies this
      ensures Consistent()
      ensures EmailTaken(AllClients(old(Snapshot()), roomId), email) ==>
        Snapshot() == old(Snapshot()) && out == [Emit(socket, JoinError(EmailTakenMessage))]
      ensures !EmailTaken(AllClients(old(Snapshot()), roomId), email) ==>
        && Snapshot() == Admit(old(Snapshot()), socket, roomId, User(username, email))
        && out == JoinedEvents(AllClients(Snapshot(), roomId), username, email, socket)
    {
      var clients := AllClients(Snapshot(), roomId);
      if EmailTaken(clients, email) {
        out := [Emit(socket, JoinError(EmailTakenMessage))];
        return;
      }
      var before := Snapshot();
      userSocketMap := userSocketMap[socket := User(username, email)];
      rooms := rooms[roomId := AddMember(Members(before, roomId), socket)];
      socketRooms := socketRooms[socket := AddMember(RoomsOf(before, socket), roomId)];
      AdmitPreservesValid(before, socket, roomId, User(username, email));

      var updated := AllClients(Snapshot(), roomId);
      out := Announce(updated, username, email, socket);
    }

    /** The CODE_CHANGE handler: relays the code to the rest of the room. */
    method OnCodeChange(socket: SocketId, roomId: RoomId, code: string) returns (out: seq<Emit>)
      ensures out == Relay(Members(Snapshot(), roomId), socket, CodeChange(code))
    {
      out := Relay(Members(Snapshot(), roomId), socket, CodeChange(code));
    }

    /** The SYNC_CODE handler: sends the code to the named socket only. */
    method OnSyncCode(target: SocketId, code: string) returns (out: seq<Emit>)
      ensures out == [Emit(target, CodeChange(code))]
    {
      out := [Emit(target, CodeChange(code))];
    }

    /**
     * The `disconnecting` handler followed by the framework's own removal of
     * the socket from every room once the handler returns.
     */
    method OnDisconnecting(socket: SocketId) returns (out: seq<Emit>)
      requires Consistent()
      modifies this
      ensures Consistent()
      ensures Snapshot() == Leave(old(Snapshot()), socket)
      ensures out == Fanout(old(Snapshot()), RoomsOf(old(Snapshot()), socket), socket, DisconnectedEvent(old(Snapshot()), socket))
    {
      var st := Snapshot();
      var left := RoomsOf(st, socket);
      var event := DisconnectedEvent(st, socket);
      out := NotifyRooms(st, left, socket, event);
      userSocketMap := userSocketMap - {socket};
      rooms := map r | r in rooms :: RemoveMember(rooms[r], socket);
      socketRooms := socketRooms - {socket};
      assert Snapshot() == Leave(st, socket);
      LeavePreservesValid(st, socket);
    }
  }
}
