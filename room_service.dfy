/**
 * The signaling channel (`roomService`): room creation, the socket to the relay
 * with its join announcement and its "send only when OPEN" gate, and the
 * dispatcher that turns membership messages into new participant lists.
 */
module RoomService {
  import opened Wrappers
  import opened RoomTypes
  import RoomStore

  datatype MessageType = Join | Offer | Answer | IceCandidate | ParticipantJoined | ParticipantLeft

  /** An opaque negotiation descriptor produced and consumed by the peer library. */
  datatype SignalData = SignalData(descriptor: string)

  /** The message's `data`: absent, a `{ name }` announcement, or a negotiation descriptor. */
  datatype Payload = NoData | Announcement(name: string) | Descriptor(signal: SignalData)

  datatype SignalingMessage = SignalingMessage(
    kind: MessageType,
    roomId: string,
    senderId: string,
    targetId: Option<string>,
    data: Payload)

  /** `WebSocket.readyState`. */
  datatype ReadyState = Connecting | Open | Closing | Closed

  /**
   * A socket to the relay: the room and participant its URL and its `onopen`
   * handler were built with, its ready state, and what it has transmitted.
   */
  class WebSocket {
    const roomId: string
    const participant: Participant
    var readyState: ReadyState
    var transmitted: seq<SignalingMessage>

    constructor (roomId: string, participant: Participant)
      ensures this.roomId == roomId && this.participant == participant
      ensures readyState == Connecting && transmitted == []
    {
      this.roomId := roomId;
      this.participant := participant;
      readyState := Connecting;
      transmitted := [];
    }
  }

  /** The announcement sent when a socket opens: a `join` from the participant, carrying its name. */
  function JoinMessage(roomId: string, participant: Participant): (m: SignalingMessage)
    ensures m.kind == Join && m.roomId == roomId && m.senderId == participant.id
    ensures m.targetId == None && m.data == Announcement(participant.name)
  {
    SignalingMessage(Join, roomId, participant.id, None, Announcement(participant.name))
  }

  /** `createRoom`'s room value: the fresh identifier and the local participant alone. */
  function NewRoom(roomId: string, localParticipant: Participant): (room: Room)
    ensures room.id == roomId && room.participants == [localParticipant]
    ensures HasId(room.participants, localParticipant.id)
  {
    var room := Room(roomId, [localParticipant]);
    assert room.participants[0].id == localParticipant.id;
    room
  }

  /** The participant list without any entry whose identifier is `id`; the others keep their order. */
  function RemoveId(ps: seq<Participant>, id: string): (r: seq<Participant>)
    ensures |r| <= |ps|
    ensures !HasId(r, id)
    decreases |ps|
  {
    if |ps| == 0 then []
    else (if ps[0].id == id then [] else [ps[0]]) + RemoveId(ps[1..], id)
  }

  /** An entry survives removal exactly when it was in the list and carries another identifier. */
  lemma {:induction false} RemoveIdMembers(ps: seq<Participant>, id: string)
    ensures forall p :: p in RemoveId(ps, id) <==> p in ps && p.id != id
    decreases |ps|
  {
    if |ps| > 0 {
      var rest := ps[1..];
      RemoveIdMembers(rest, id);
      assert ps == [ps[0]] + rest;
    }
  }

  /** Removal works piecewise, so the kept entries stay in their original order. */
  lemma {:induction false} RemoveIdConcat(a: seq<Participant>, b: seq<Participant>, id: string)
    ensures RemoveId(a + b, id) == RemoveId(a, id) + RemoveId(b, id)
    decreases |a|
  {
    if |a| > 0 {
      assert (a + b)[1..] == a[1..] + b;
      RemoveIdConcat(a[1..], b, id);
    } else {
      assert a + b == b;
    }
  }

  /** Removing an identifier no entry carries leaves the list as it was. */
  lemma {:induction false} RemoveIdAbsent(ps: seq<Participant>, id: string)
    requires !HasId(ps, id)
    ensures RemoveId(ps, id) == ps
    decreases |ps|
  {
    if |ps| > 0 {
      var rest := ps[1..];
      HasIdTail(ps, id);
      RemoveIdAbsent(rest, id);
      assert RemoveId(ps, id) == [ps[0]] + RemoveId(rest, id);
      assert [ps[0]] + rest == ps;
    }
  }

  /** An identifier carried after the first entry is carried by the list. */
  lemma HasIdTail(ps: seq<Participant>, id: string)
    requires |ps| > 0
    ensures HasId(ps[1..], id) ==> HasId(ps, id)
  {
    if HasId(ps[1..], id) {
      var i :| 0 <= i < |ps| - 1 && ps[1..][i].id == id;
      assert ps[i + 1].id == id;
    }
  }

  /** The name a `participant-joined` message gives its participant (`message.data.name`). */
  function JoinedName(data: Payload): (name: string)
    ensures data.Announcement? ==> name == data.name
    ensures !data.Announcement? ==> name == ""
  {
    match data
    case Announcement(name) => name
    case _ => ""
  }

  /** What the dispatcher does with one message, given a room and a local participant. */
  datatype HandlerOutcome =
    | Unchanged          // no store call
    | SetRoom(room: Room) // `store.setCurrentRoom(room)`
    | Threw              // reading `message.data.name` on an absent `data` throws

  /**
   * `handleSignalingMessage` once the store holds a room and a local participant:
   * a `participant-joined` from another sender appends a participant with both
   * media flags on and no stream (no check for a duplicate identifier); a
   * `participant-left` from another sender filters that identifier out; every
   * other message, and every message from the local participant, is ignored.
   */
  function HandleMessage(room: Room, local: Participant, message: SignalingMessage): (o: HandlerOutcome)
    ensures message.kind in {Join, Offer, Answer, IceCandidate} ==> o == Unchanged
    ensures message.senderId == local.id ==> o == Unchanged
    ensures o.SetRoom? ==> o.room.id == room.id
    ensures o == Threw <==>
              message.kind == ParticipantJoined && message.senderId != local.id && message.data == NoData
    ensures o.SetRoom? && message.kind == ParticipantJoined ==>
              o.room.participants ==
                room.participants + [Participant(message.senderId, JoinedName(message.data), true, true, None)]
    ensures o.SetRoom? && message.kind == ParticipantLeft ==>
              o.room.participants == RemoveId(room.participants, message.senderId)
    ensures message.kind in {ParticipantJoined, ParticipantLeft} && message.senderId != local.id ==> o != Unchanged
  {
    match message.kind
    case ParticipantJoined =>
      if message.senderId == local.id then Unchanged
      else if message.data == NoData then Threw
      else
        var newParticipant := Participant(message.senderId, JoinedName(message.data), true, true, None);
        SetRoom(room.(participants := room.participants + [newParticipant]))
    case ParticipantLeft =>
      if message.senderId == local.id then Unchanged
      else SetRoom(room.(participants := RemoveId(room.participants, message.senderId)))
    case _ => Unchanged
  }

  /** While the local participant is in the room, no message removes it. */
  lemma HandleMessageKeepsLocal(room: Room, local: Participant, message: SignalingMessage)
    requires HasId(room.participants, local.id)
    ensures HandleMessage(room, local, message).SetRoom? ==>
              HasId(HandleMessage(room, local, message).room.participants, local.id)
  {
    var o := HandleMessage(room, local, message);
    if o.SetRoom? {
      var i :| 0 <= i < |room.participants| && room.participants[i].id == local.id;
      var p := room.participants[i];
      if message.kind == ParticipantJoined {
        assert o.room.participants[i] == p;
      } else {
        RemoveIdMembers(room.participants, message.senderId);
        assert p in o.room.participants;
        var j :| 0 <= j < |o.room.participants| && o.room.participants[j] == p;
      }
    }
  }

  /** A second `participant-joined` for an identifier already present produces a duplicate. */
  lemma RepeatedJoinDuplicates(room: Room, local: Participant, message: SignalingMessage)
    requires message.kind == ParticipantJoined && message.senderId != local.id && message.data != NoData
    requires HasId(room.participants, message.senderId)
    ensures HandleMessage(room, local, message).SetRoom?
    ensures !UniqueIds(HandleMessage(room, local, message).room.participants)
  {
    var ps := HandleMessage(room, local, message).room.participants;
    var i :| 0 <= i < |room.participants| && room.participants[i].id == message.senderId;
    assert ps[i].id == ps[|ps| - 1].id;
  }

  /** The module-level `ws` slot holding the most recently created socket. */
  class SignalingChannel {
    var ws: WebSocket?

    constructor ()
      ensures ws == null
    {
      ws := null;
    }

    /** `connectToSignalingServer`: a new socket, still connecting, replaces the old one in `ws`. */
    method Connect(roomId: string, participant: Participant)
      modifies this
      ensures ws != null && fresh(ws)
      ensures ws.roomId == roomId && ws.participant == participant
      ensures ws.readyState == Connecting && ws.transmitted == []
    {
      ws := new WebSocket(roomId, participant);
    }

    /** `createRoom(local)`, with the generated identifier passed in: the new room, and a connection to it. */
    method CreateRoom(localParticipant: Participant, newId: string) returns (room: Room)
      modifies this
      ensures room == NewRoom(newId, localParticipant)
      ensures ws != null && fresh(ws) && ws.roomId == newId && ws.participant == localParticipant
      ensures ws.readyState == Connecting && ws.transmitted == []
    {
      room := NewRoom(newId, localParticipant);
      Connect(room.id, localParticipant);
    }

    /** `joinRoom(roomId, local)`: only connects. */
    method JoinRoom(roomId: string, localParticipant: Participant)
      modifies this
      ensures ws != null && fresh(ws) && ws.roomId == roomId && ws.participant == localParticipant
      ensures ws.readyState == Connecting && ws.transmitted == []
    {
      Connect(roomId, localParticipant);
    }

    /**
     * `sendSignalingMessage`: transmitted on the current socket when it is OPEN,
     * dropped otherwise, with nothing queued.
     */
    method SendSignalingMessage(message: SignalingMessage)
      modifies ws
      ensures ws == old(ws)
      ensures ws != null ==> ws.readyState == old(ws.readyState)
      ensures ws != null && old(ws.readyState) == Open ==> ws.transmitted == old(ws.transmitted) + [message]
      ensures ws != null && old(ws.readyState) != Open ==> ws.transmitted == old(ws.transmitted)
    {
      if ws != null && ws.readyState == Open {
        ws.transmitted := ws.transmitted + [message];
      }
    }

    /**
     * A socket's `open` event, which a socket fires once, while CONNECTING: it
     * becomes OPEN and exactly one `join` is sent through `ws`. When `socket` is
     * still the current socket, it carries the join.
     */
    method OnOpen(socket: WebSocket)
      requires socket.readyState == Connecting
      modifies socket, ws
      ensures ws == old(ws)
      ensures socket.readyState == Open
      ensures ws == socket ==>
                socket.transmitted == old(socket.transmitted) + [JoinMessage(socket.roomId, socket.participant)]
      ensures ws != socket && ws != null && old(ws.readyState) == Open ==>
                ws.transmitted == old(ws.transmitted) + [JoinMessage(socket.roomId, socket.participant)]
      ensures ws != socket && ws != null && old(ws.readyState) != Open ==> ws.transmitted == old(ws.transmitted)
      ensures ws != socket ==> socket.transmitted == old(socket.transmitted)
    {
      socket.readyState := Open;
      SendSignalingMessage(JoinMessage(socket.roomId, socket.participant));
    }

    /** A socket's `close` event: only logged; the socket is CLOSED and no longer transmits. */
    method OnClose(socket: WebSocket)
      modifies socket
      ensures socket.readyState == Closed && socket.transmitted == old(socket.transmitted)
    {
      socket.readyState := Closed;
    }

    /**
     * `handleSignalingMessage`: with no room or no local participant nothing
     * changes; otherwise the store's room becomes the dispatcher's new room, if any.
     */
    method HandleSignalingMessage(store: RoomStore.Store, message: SignalingMessage)
      modifies store
      ensures store.localParticipant == old(store.localParticipant)
      ensures old(store.currentRoom).None? || old(store.localParticipant).None? ==>
                store.currentRoom == old(store.currentRoom)
      ensures old(store.currentRoom).Some? && old(store.localParticipant).Some? ==>
                store.currentRoom ==
                  match HandleMessage(old(store.currentRoom).value, old(store.localParticipant).value, message)
                  case SetRoom(r) => Some(r)
                  case _ => old(store.currentRoom)
    {
      if store.currentRoom.None? || store.localParticipant.None? {
        return;
      }
      var outcome := HandleMessage(store.currentRoom.value, store.localParticipant.value, message);
      if outcome.SetRoom? {
        store.SetCurrentRoom(outcome.room);
      }
    }
  }
}
