/** The room data model: participants, rooms and partial participant updates. */
module RoomTypes {
  import opened Wrappers
  import Media

  /** A participant; `stream` is absent until a media stream is attached. */
  datatype Participant = Participant(
    id: string,
    name: string,
    videoEnabled: bool,
    audioEnabled: bool,
    stream: Option<Media.MediaStream>)

  datatype Room = Room(id: string, participants: seq<Participant>)

  /**
   * A `Partial<Participant>`: each field is `None` when its key is absent.
   * `stream` is an optional key whose value may itself be `undefined`.
   */
  datatype ParticipantUpdate = ParticipantUpdate(
    id: Option<string>,
    name: Option<string>,
    videoEnabled: Option<bool>,
    audioEnabled: Option<bool>,
    stream: Option<Option<Media.MediaStream>>)

  /** `{ ...p, ...u }`: every key present in `u` overrides, every other field keeps `p`'s value. */
  function Merge(p: Participant, u: ParticipantUpdate): (r: Participant)
    ensures r.id == (if u.id.Some? then u.id.value else p.id)
    ensures r.name == (if u.name.Some? then u.name.value else p.name)
    ensures r.videoEnabled == (if u.videoEnabled.Some? then u.videoEnabled.value else p.videoEnabled)
    ensures r.audioEnabled == (if u.audioEnabled.Some? then u.audioEnabled.value else p.audioEnabled)
    ensures r.stream == (if u.stream.Some? then u.stream.value else p.stream)
  {
    Participant(
      u.id.GetOr(p.id),
      u.name.GetOr(p.name),
      u.videoEnabled.GetOr(p.videoEnabled),
      u.audioEnabled.GetOr(p.audioEnabled),
      u.stream.GetOr(p.stream))
  }

  /** The update spelled `{ ...q }`: every key of `q` present. */
  function FullUpdate(q: Participant): ParticipantUpdate
  {
    ParticipantUpdate(Some(q.id), Some(q.name), Some(q.videoEnabled), Some(q.audioEnabled), Some(q.stream))
  }

  /** Merging `{ ...q }` into any participant yields `q`; merging an empty update changes nothing. */
  lemma MergeFullUpdate(p: Participant, q: Participant)
    ensures Merge(p, FullUpdate(q)) == q
    ensures Merge(p, ParticipantUpdate(None, None, None, None, None)) == p
  {
  }

  /** Merging the same update twice is the same as merging it once. */
  lemma MergeIdempotent(p: Participant, u: ParticipantUpdate)
    ensures Merge(Merge(p, u), u) == Merge(p, u)
  {
  }

  /** Some participant in `ps` has identifier `id`. */
  predicate HasId(ps: seq<Participant>, id: string)
  {
    exists i :: 0 <= i < |ps| && ps[i].id == id
  }

  /** The identifiers of `ps`, in order. */
  function Ids(ps: seq<Participant>): (ids: seq<string>)
    ensures |ids| == |ps| && forall i :: 0 <= i < |ps| ==> ids[i] == ps[i].id
  {
    seq(|ps|, i requires 0 <= i < |ps| => ps[i].id)
  }

  /** No two participants of `ps` share an identifier. */
  predicate UniqueIds(ps: seq<Participant>)
  {
    forall i, j :: 0 <= i < j < |ps| ==> ps[i].id != ps[j].id
  }
}
