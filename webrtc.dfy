/**
 * The peer bookkeeping of the WebRTC hook (`useWebRTC`): a map from remote
 * participant identifier to peer connection, the handlers that create, feed and
 * remove entries, the peer events, and the cleanup that destroys every peer.
 * A peer connection is modelled by what the hook can observe of it: its role,
 * whether it was destroyed, and the signals fed to it.
 */
module WebRTC {
  import opened Wrappers
  import opened RoomTypes
  import Media
  import RoomStore
  import RoomService

  /** `participants.findIndex(p => p.id === id)`: the first position carrying `id`, or -1. */
  function FindIndex(ps: seq<Participant>, id: string): (r: int)
    ensures -1 <= r < |ps|
    ensures r == -1 <==> !HasId(ps, id)
    ensures r >= 0 ==> ps[r].id == id && forall j :: 0 <= j < r ==> ps[j].id != id
    decreases |ps|
  {
    if |ps| == 0 then -1
    else if ps[0].id == id then 0
    else
      var k := FindIndex(ps[1..], id);
      if k == -1 then -1 else k + 1
  }

  /**
   * The participant list a `stream` event produces: the first entry carrying
   * `id` gets the stream, every other entry (later duplicates included) is kept.
   */
  function WithStream(ps: seq<Participant>, id: string, s: Media.MediaStream): (r: seq<Participant>)
    requires HasId(ps, id)
    ensures |r| == |ps| && Ids(r) == Ids(ps)
    ensures r[FindIndex(ps, id)] == ps[FindIndex(ps, id)].(stream := Some(s))
    ensures forall j :: 0 <= j < |ps| && j != FindIndex(ps, id) ==> r[j] == ps[j]
  {
    var i := FindIndex(ps, id);
    ps[i := ps[i].(stream := Some(s))]
  }

  /**
   * With unique identifiers, attaching a stream is the store's merge-by-identifier
   * update with only the `stream` key present.
   */
  lemma WithStreamIsUpdate(ps: seq<Participant>, id: string, s: Media.MediaStream)
    requires HasId(ps, id) && UniqueIds(ps)
    ensures WithStream(ps, id, s) ==
              RoomStore.UpdatedParticipants(ps, id, ParticipantUpdate(None, None, None, None, Some(Some(s))))
  {
    var i := FindIndex(ps, id);
    var u := ParticipantUpdate(None, None, None, None, Some(Some(s)));
    var a := WithStream(ps, id, s);
    var b := RoomStore.UpdatedParticipants(ps, id, u);
    forall j | 0 <= j < |ps| ensures a[j] == b[j] {
      if j != i {
        assert ps[j].id != id by {
          if j < i { assert ps[j].id != ps[i].id; } else { assert ps[i].id != ps[j].id; }
        }
      }
    }
  }

  /**
   * The message a peer's `signal` event sends: an `offer` from an initiator, an
   * `answer` from a responder, addressed to the peer's target, from the local id.
   */
  function NegotiationMessage(roomId: string, senderId: string, targetId: string, initiator: bool,
                              signal: RoomService.SignalData): (m: RoomService.SignalingMessage)
    ensures m.kind == RoomService.Offer <==> initiator
    ensures m.kind == RoomService.Answer <==> !initiator
    ensures m.roomId == roomId && m.senderId == senderId && m.targetId == Some(targetId)
    ensures m.data == RoomService.Descriptor(signal)
  {
    RoomService.SignalingMessage(
      if initiator then RoomService.Offer else RoomService.Answer,
      roomId, senderId, Some(targetId), RoomService.Descriptor(signal))
  }

  /**
   * A `simple-peer` connection, with the values its `signal` and `stream`
   * handlers captured when `createPeer` made it.
   */
  class Peer {
    const targetId: string
    const initiator: bool
    const roomId: string
    const senderId: string
    const roomSnapshot: Option<Room>
    var destroyed: bool
    var fedSignals: seq<RoomService.SignalData>

    constructor (targetId: string, initiator: bool, roomId: string, senderId: string, roomSnapshot: Option<Room>)
      ensures this.targetId == targetId && this.initiator == initiator && this.roomId == roomId
      ensures this.senderId == senderId && this.roomSnapshot == roomSnapshot
      ensures !destroyed && fedSignals == []
    {
      this.targetId := targetId;
      this.initiator := initiator;
      this.roomId := roomId;
      this.senderId := senderId;
      this.roomSnapshot := roomSnapshot;
      destroyed := false;
      fedSignals := [];
    }

    /** `peer.signal(data)`: hands a remote descriptor to the connection. */
    method Signal(data: RoomService.SignalData)
      modifies this
      ensures fedSignals == old(fedSignals) + [data] && destroyed == old(destroyed)
    {
      fedSignals := fedSignals + [data];
    }

    /** `peer.destroy()`. */
    method Destroy()
      modifies this
      ensures destroyed && fedSignals == old(fedSignals)
    {
      destroyed := true;
    }
  }

  /** The hook: its room identifier, the store values of the latest render, and the `peers` map. */
  class PeerManager {
    const roomId: string
    var localParticipant: Option<Participant>
    var currentRoom: Option<Room>
    var peers: map<string, Peer>

    /** Every entry is keyed by its peer's target and holds a live peer. */
    ghost predicate Valid()
      reads this, peers.Values
    {
      forall id :: id in peers ==> peers[id].targetId == id && !peers[id].destroyed
    }

    /** The local participant has a media stream, which `createPeer` needs. */
    predicate HasLocalStream()
      reads this
    {
      localParticipant.Some? && localParticipant.value.stream.Some?
    }

    /** The hook's first render: an empty map and the store's current values. */
    constructor (roomId: string, store: RoomStore.Store)
      ensures Valid() && peers == map[] && this.roomId == roomId
      ensures localParticipant == store.localParticipant && currentRoom == store.currentRoom
    {
      this.roomId := roomId;
      localParticipant := store.localParticipant;
      currentRoom := store.currentRoom;
      peers := map[];
    }

    /**
     * The effect registers its cleanup only when it passes its guard: the local
     * participant has a stream and the room identifier is not empty.
     */
    predicate EffectArmed()
      reads this
    {
      HasLocalStream() && roomId != ""
    }

    /**
     * A re-render with the store's current values. A new local participant or
     * room rebuilds `createPeer`, which re-runs the effect: when the previous
     * run passed its guard, its cleanup destroys every peer and clears the map.
     * Otherwise the map and its peers are kept.
     */
    method Rerender(store: RoomStore.Store)
      requires Valid()
      modifies this, peers.Values
      ensures Valid()
      ensures localParticipant == store.localParticipant && currentRoom == store.currentRoom
      ensures (old(localParticipant) != store.localParticipant || old(currentRoom) != store.currentRoom)
                && old(EffectArmed()) ==>
                peers == map[] && forall p :: p in old(peers.Values) ==> p.destroyed
      ensures (old(localParticipant) == store.localParticipant && old(currentRoom) == store.currentRoom)
                || !old(EffectArmed()) ==>
                peers == old(peers) && forall p :: p in old(peers.Values) ==> unchanged(p)
    {
      if (localParticipant != store.localParticipant || currentRoom != store.currentRoom) && EffectArmed() {
        Cleanup();
      }
      localParticipant := store.localParticipant;
      currentRoom := store.currentRoom;
    }

    /**
     * `createPeer(targetId, initiator)`: without a local stream, `null` and no
     * change; otherwise a new peer stored under `targetId`, replacing any entry.
     */
    method CreatePeer(targetId: string, initiator: bool) returns (peer: Peer?)
      requires Valid()
      modifies this
      ensures Valid()
      ensures localParticipant == old(localParticipant) && currentRoom == old(currentRoom)
      ensures !HasLocalStream() ==> peer == null && peers == old(peers)
      ensures HasLocalStream() ==> peer != null && fresh(peer) && peers == old(peers)[targetId := peer]
      ensures HasLocalStream() ==>
                && peer.targetId == targetId && peer.initiator == initiator && peer.roomId == roomId
                && peer.senderId == localParticipant.value.id && peer.roomSnapshot == currentRoom
                && !peer.destroyed && peer.fedSignals == []
    {
      if !HasLocalStream() {
        return null;
      }
      peer := new Peer(targetId, initiator, roomId, localParticipant.value.id, currentRoom);
      peers := peers[targetId := peer];
    }

    /** `handleNewParticipant(id)`: an initiator peer only when no entry exists for `id`. */
    method HandleNewParticipant(participantId: string)
      requires Valid()
      modifies this
      ensures Valid()
      ensures localParticipant == old(localParticipant) && currentRoom == old(currentRoom)
      ensures participantId in old(peers) || !HasLocalStream() ==> peers == old(peers)
      ensures participantId !in old(peers) && HasLocalStream() ==>
                && participantId in peers && fresh(peers[participantId])
                && peers == old(peers)[participantId := peers[participantId]]
                && peers[participantId].initiator && peers[participantId].fedSignals == []
                && peers[participantId].roomId == roomId
                && peers[participantId].senderId == localParticipant.value.id
                && peers[participantId].roomSnapshot == currentRoom
    {
      if participantId !in peers {
        var _ := CreatePeer(participantId, true);
      }
    }

    /**
     * `handleOffer(senderId, signal)`: the existing entry for `senderId`, or else
     * a new responder, is fed the signal; no other peer is touched.
     */
    method HandleOffer(senderId: string, signal: RoomService.SignalData)
      requires Valid()
      modifies this, peers.Values
      ensures Valid()
      ensures localParticipant == old(localParticipant) && currentRoom == old(currentRoom)
      ensures senderId in old(peers) ==>
                peers == old(peers) && peers[senderId].fedSignals == old(peers[senderId].fedSignals) + [signal]
      ensures senderId !in old(peers) && HasLocalStream() ==>
                && senderId in peers && fresh(peers[senderId])
                && peers == old(peers)[senderId := peers[senderId]]
                && !peers[senderId].initiator && peers[senderId].fedSignals == [signal]
                && peers[senderId].roomId == roomId && peers[senderId].senderId == localParticipant.value.id
                && peers[senderId].roomSnapshot == currentRoom
      ensures senderId !in old(peers) && !HasLocalStream() ==> peers == old(peers)
      ensures forall id :: id in old(peers) && id != senderId ==> unchanged(old(peers)[id])
    {
      var peer: Peer?;
      if senderId in peers {
        peer := peers[senderId];
      } else {
        peer := CreatePeer(senderId, false);
      }
      if peer != null {
        peer.Signal(signal);
      }
    }

    /** `handleAnswer(senderId, signal)`: feeds an existing entry; an unknown sender is ignored. */
    method HandleAnswer(senderId: string, signal: RoomService.SignalData)
      requires Valid()
      modifies peers.Values
      ensures Valid()
      ensures senderId in peers ==> peers[senderId].fedSignals == old(peers[senderId].fedSignals) + [signal]
      ensures senderId !in peers ==> forall id :: id in peers ==> unchanged(peers[id])
      ensures forall id :: id in peers && id != senderId ==> unchanged(peers[id])
    {
      if senderId in peers {
        peers[senderId].Signal(signal);
      }
    }

    /** A peer's `signal` event: its offer or answer goes out through the signaling channel's gate. */
    method OnSignal(peer: Peer, signal: RoomService.SignalData, channel: RoomService.SignalingChannel)
      modifies channel.ws
      ensures channel.ws == old(channel.ws)
      ensures channel.ws != null && old(channel.ws.readyState) == RoomService.Open ==>
                channel.ws.transmitted == old(channel.ws.transmitted) +
                  [NegotiationMessage(peer.roomId, peer.senderId, peer.targetId, peer.initiator, signal)]
      ensures channel.ws != null && old(channel.ws.readyState) != RoomService.Open ==>
                channel.ws.transmitted == old(channel.ws.transmitted)
    {
      channel.SendSignalingMessage(NegotiationMessage(peer.roomId, peer.senderId, peer.targetId, peer.initiator, signal));
    }

    /**
     * A peer's `stream` event: when the room captured at the peer's creation has
     * an entry for the target, the store's room becomes that captured room with
     * the stream attached to the first such entry; otherwise nothing changes.
     * Changes the store saw after the capture are overwritten.
     */
    method OnStream(peer: Peer, stream: Media.MediaStream, store: RoomStore.Store)
      modifies store
      ensures store.localParticipant == old(store.localParticipant)
      ensures peer.roomSnapshot.Some? && HasId(peer.roomSnapshot.value.participants, peer.targetId) ==>
                store.currentRoom == Some(peer.roomSnapshot.value.(participants :=
                  WithStream(peer.roomSnapshot.value.participants, peer.targetId, stream)))
      ensures peer.roomSnapshot.None? || !HasId(peer.roomSnapshot.value.participants, peer.targetId) ==>
                store.currentRoom == old(store.currentRoom)
    {
      if peer.roomSnapshot.Some? {
        var room := peer.roomSnapshot.value;
        var participantIndex := FindIndex(room.participants, peer.targetId);
        if participantIndex != -1 {
          store.SetCurrentRoom(room.(participants := WithStream(room.participants, peer.targetId, stream)));
        }
      }
    }

    /**
     * A remote stream followed by the render it causes: when the stream handler
     * stores a room different from the one of the latest render, the re-render
     * re-runs the effect, so an armed effect's cleanup destroys every peer,
     * including the one that delivered the stream.
     */
    method OnStreamThenRender(peer: Peer, stream: Media.MediaStream, store: RoomStore.Store)
      requires Valid() && EffectArmed()
      requires peer.roomSnapshot.Some? && HasId(peer.roomSnapshot.value.participants, peer.targetId)
      requires Some(peer.roomSnapshot.value.(participants :=
                 WithStream(peer.roomSnapshot.value.participants, peer.targetId, stream))) != currentRoom
      modifies this, peers.Values, store
      ensures Valid() && peers == map[]
      ensures forall p :: p in old(peers.Values) ==> p.destroyed
      ensures currentRoom == store.currentRoom
    {
      OnStream(peer, stream, store);
      Rerender(store);
    }

    /**
     * A peer's `error` event: the peer is destroyed and the entry under its target
     * removed. For a peer the map holds, that is exactly its own entry.
     */
    method OnError(peer: Peer)
      requires Valid()
      modifies this, peer
      ensures Valid()
      ensures peer.destroyed && peer.fedSignals == old(peer.fedSignals)
      ensures peers == old(peers) - {peer.targetId}
      ensures peer in old(peers.Values) ==>
                peers == map id | id in old(peers) && old(peers)[id] != peer :: old(peers)[id]
      ensures localParticipant == old(localParticipant) && currentRoom == old(currentRoom)
    {
      peer.Destroy();
      peers := peers - {peer.targetId};
    }

    /** The effect's cleanup: every peer is destroyed, then the map is cleared. */
    method Cleanup()
      requires Valid()
      modifies this, peers.Values
      ensures Valid() && peers == map[]
      ensures forall p :: p in old(peers.Values) ==> p.destroyed
      ensures localParticipant == old(localParticipant) && currentRoom == old(currentRoom)
    {
      var remaining := peers.Keys;
      while remaining != {}
        invariant remaining <= peers.Keys && peers == old(peers)
        invariant forall id :: id in peers && id !in remaining ==> peers[id].destroyed
        invariant localParticipant == old(localParticipant) && currentRoom == old(currentRoom)
        decreases remaining
      {
        var id :| id in remaining;
        peers[id].Destroy();
        remaining := remaining - {id};
      }
      peers := map[];
    }
  }

  /** A valid map never holds one peer under two identifiers. */
  lemma OneEntryPerPeer(m: PeerManager)
    requires m.Valid()
    ensures forall a, b :: a in m.peers && b in m.peers && a != b ==> m.peers[a] != m.peers[b]
  {
  }
}
