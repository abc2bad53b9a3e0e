/**
 * The microphone and camera buttons of the room controls, composed from the
 * store and the track toggle: they show that a toggle routed through
 * `updateParticipant` refreshes the room's entry but leaves the store's own
 * local participant with its old flag.
 */
module RoomControls {
  import opened Wrappers
  import opened RoomTypes
  import Media
  import RoomStore

  /** The local participant's flag for one track kind. */
  function Flag(p: Participant, kind: Media.TrackKind): bool
  {
    if kind == Media.Audio then p.audioEnabled else p.videoEnabled
  }

  /** `{ ...local, audioEnabled: b }` or `{ ...local, videoEnabled: b }`. */
  function WithFlag(p: Participant, kind: Media.TrackKind, b: bool): (r: Participant)
    ensures Flag(r, kind) == b && Flag(r, Media.Other(kind)) == Flag(p, Media.Other(kind))
    ensures r.id == p.id && r.name == p.name && r.stream == p.stream
  {
    if kind == Media.Audio then p.(audioEnabled := b) else p.(videoEnabled := b)
  }

  /**
   * `toggleAudio` / `toggleVideo`: without a local stream nothing happens;
   * otherwise the tracks of the kind are toggled and the room's entries for the
   * local identifier receive the local participant with the new flag. The
   * store's `localParticipant` keeps its old flag.
   */
  method Toggle(store: RoomStore.Store, kind: Media.TrackKind)
    requires store.localParticipant.Some? && store.localParticipant.value.stream.Some? ==>
               store.localParticipant.value.stream.value.Valid()
    modifies store
    modifies if store.localParticipant.Some? && store.localParticipant.value.stream.Some?
             then {store.localParticipant.value.stream.value.Tracks(kind)} else {}
    ensures store.localParticipant == old(store.localParticipant)
    ensures old(store.localParticipant).None? || old(store.localParticipant).value.stream.None? ==>
              store.currentRoom == old(store.currentRoom)
    ensures old(store.localParticipant).Some? && old(store.localParticipant).value.stream.Some? ==>
              var local := old(store.localParticipant).value;
              var tracks := local.stream.value.Tracks(kind);
              && tracks[..] == Media.Toggled(old(tracks[..]))
              && (old(store.currentRoom).None? ==> store.currentRoom == None)
              && (old(store.currentRoom).Some? ==>
                    store.currentRoom == Some(RoomStore.UpdatedRoom(old(store.currentRoom).value, local.id,
                      FullUpdate(WithFlag(local, kind, Media.ToggleResult(old(tracks[..])))))))
  {
    if store.localParticipant.None? || store.localParticipant.value.stream.None? {
      return;
    }
    var local := store.localParticipant.value;
    var isEnabled := Media.ToggleMediaTrack(local.stream.value, kind);
    store.UpdateParticipant(local.id, FullUpdate(WithFlag(local, kind, isEnabled)));
  }

  /**
   * After a toggle that changes a track's state away from the local
   * participant's flag, the room's copy of the local participant carries the
   * new flag while the store's local participant still carries the old one.
   */
  lemma StaleLocalFlag(room: Room, local: Participant, kind: Media.TrackKind, isEnabled: bool, i: nat)
    requires i < |room.participants| && room.participants[i].id == local.id
    requires isEnabled != Flag(local, kind)
    ensures var updated := RoomStore.UpdatedRoom(room, local.id, FullUpdate(WithFlag(local, kind, isEnabled)));
      && Flag(updated.participants[i], kind) == isEnabled
      && Flag(updated.participants[i], kind) != Flag(local, kind)
  {
    MergeFullUpdate(room.participants[i], WithFlag(local, kind, isEnabled));
  }
}
