/**
 * The room state store (`useRoomStore`): the current room and the local
 * participant, replaced wholesale by their setters, and a merge-by-identifier
 * update of the room's participant list.
 */
module RoomStore {
  import opened Wrappers
  import opened RoomTypes

  /**
   * The participant list after `updateParticipant(id, u)`: the same positions,
   * every entry whose identifier is `id` (duplicates included) merged with `u`,
   * every other entry as it was.
   */
  function UpdatedParticipants(ps: seq<Participant>, id: string, u: ParticipantUpdate): (r: seq<Participant>)
    ensures |r| == |ps|
    ensures forall i :: 0 <= i < |ps| ==> r[i] == if ps[i].id == id then Merge(ps[i], u) else ps[i]
    decreases |ps|
  {
    if |ps| == 0 then []
    else [if ps[0].id == id then Merge(ps[0], u) else ps[0]] + UpdatedParticipants(ps[1..], id, u)
  }

  /** The room after `updateParticipant(id, u)`: same room identifier and size, merged participants. */
  function UpdatedRoom(room: Room, id: string, u: ParticipantUpdate): (r: Room)
    ensures r.id == room.id && |r.participants| == |room.participants|
    ensures forall i :: 0 <= i < |room.participants| && room.participants[i].id != id ==>
              r.participants[i] == room.participants[i]
  {
    room.(participants := UpdatedParticipants(room.participants, id, u))
  }

  /** An identifier that no participant carries leaves the list exactly as it was. */
  lemma {:induction false} UpdateAbsentId(ps: seq<Participant>, id: string, u: ParticipantUpdate)
    requires !HasId(ps, id)
    ensures UpdatedParticipants(ps, id, u) == ps
  {
    var r := UpdatedParticipants(ps, id, u);
    assert forall i :: 0 <= i < |ps| ==> r[i] == ps[i];
  }

  /**
   * An update that does not rename (no `id` key, or the same `id`) keeps every
   * identifier in place; applying it a second time changes nothing more.
   */
  lemma {:induction false} UpdateKeepsIds(ps: seq<Participant>, id: string, u: ParticipantUpdate)
    requires u.id == None || u.id == Some(id)
    ensures Ids(UpdatedParticipants(ps, id, u)) == Ids(ps)
    ensures UpdatedParticipants(UpdatedParticipants(ps, id, u), id, u) == UpdatedParticipants(ps, id, u)
  {
    var r := UpdatedParticipants(ps, id, u);
    assert forall i :: 0 <= i < |ps| ==> r[i].id == ps[i].id;
    var r2 := UpdatedParticipants(r, id, u);
    forall i | 0 <= i < |ps| ensures r2[i] == r[i] {
      if ps[i].id == id {
        MergeIdempotent(ps[i], u);
      }
    }
  }

  /** An update whose `id` key names another identifier renames the matching entries. */
  lemma UpdateRenames(ps: seq<Participant>, id: string, u: ParticipantUpdate, i: nat)
    requires i < |ps| && ps[i].id == id && u.id.Some? && u.id.value != id
    ensures UpdatedParticipants(ps, id, u)[i].id == u.id.value
    ensures UpdatedParticipants(ps, id, u)[i].id != id
  {
  }

  /** The store: `currentRoom` and `localParticipant`, both `null` until set. */
  class Store {
    var currentRoom: Option<Room>
    var localParticipant: Option<Participant>

    constructor ()
      ensures currentRoom == None && localParticipant == None
    {
      currentRoom := None;
      localParticipant := None;
    }

    /** `setCurrentRoom(room)`: replaces the room wholesale; the local participant is untouched. */
    method SetCurrentRoom(room: Room)
      modifies this
      ensures currentRoom == Some(room)
      ensures localParticipant == old(localParticipant)
    {
      currentRoom := Some(room);
    }

    /** `setLocalParticipant(p)`: replaces the local participant; the room is untouched. */
    method SetLocalParticipant(participant: Participant)
      modifies this
      ensures localParticipant == Some(participant)
      ensures currentRoom == old(currentRoom)
    {
      localParticipant := Some(participant);
    }

    /**
     * `updateParticipant(id, updates)`: with no room nothing changes; otherwise the
     * room keeps its identifier and its participants are merged by identifier.
     * The local participant is never touched, even when `id` is its identifier.
     */
    method UpdateParticipant(participantId: string, updates: ParticipantUpdate)
      modifies this
      ensures old(currentRoom) == None ==> currentRoom == None
      ensures old(currentRoom).Some? ==>
                currentRoom == Some(UpdatedRoom(old(currentRoom).value, participantId, updates))
      ensures localParticipant == old(localParticipant)
    {
      if currentRoom == None {
        return;
      }
      currentRoom := Some(UpdatedRoom(currentRoom.value, participantId, updates));
    }
  }
}
