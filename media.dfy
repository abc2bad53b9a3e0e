/**
 * The media-toggle utility (`toggleMediaTrack`): flips the `enabled` flag of
 * every track of one kind on a stream, driven by the first track's state.
 */
module Media {

  datatype TrackKind = Audio | Video

  /**
   * A media stream, seen through its tracks' `enabled` flags: one array per kind,
   * in the order `getAudioTracks()` and `getVideoTracks()` return them.
   */
  class MediaStream {
    const audioTracks: array<bool>
    const videoTracks: array<bool>

    /** The two kinds are held by distinct arrays. */
    ghost predicate Valid()
    {
      audioTracks != videoTracks
    }

    constructor (audio: seq<bool>, video: seq<bool>)
      ensures Valid() && fresh(audioTracks) && fresh(videoTracks)
      ensures audioTracks[..] == audio && videoTracks[..] == video
    {
      audioTracks := new bool[|audio|](i requires 0 <= i < |audio| => audio[i]);
      videoTracks := new bool[|video|](i requires 0 <= i < |video| => video[i]);
    }

    /** The tracks of one kind: `getAudioTracks()` or `getVideoTracks()`. */
    function Tracks(kind: TrackKind): (a: array<bool>)
      ensures a == (if kind == Audio then audioTracks else videoTracks)
    {
      if kind == Audio then audioTracks else videoTracks
    }
  }

  /** The other track kind. */
  function Other(kind: TrackKind): (o: TrackKind)
    ensures o != kind
  {
    if kind == Audio then Video else Audio
  }

  /** Every flag equal to `b`. */
  predicate AllEqual(flags: seq<bool>, b: bool)
  {
    forall i :: 0 <= i < |flags| ==> flags[i] == b
  }

  /** The value a toggle reports: the negation of the first track's flag, `false` with no tracks. */
  function ToggleResult(flags: seq<bool>): (isEnabled: bool)
    ensures |flags| > 0 ==> isEnabled != flags[0]
    ensures |flags| == 0 ==> !isEnabled
  {
    if |flags| == 0 then false else !flags[0]
  }

  /** The flags after a toggle: unchanged with no tracks, otherwise all set to the reported value. */
  function Toggled(flags: seq<bool>): (r: seq<bool>)
    ensures |r| == |flags|
    ensures |flags| == 0 ==> r == flags
    ensures |flags| > 0 ==> AllEqual(r, !flags[0])
  {
    if |flags| == 0 then flags else seq(|flags|, _ => !flags[0])
  }

  /** After a toggle every track of the kind carries the reported value, as does the first track. */
  lemma ToggledAgreesWithResult(flags: seq<bool>)
    requires |flags| > 0
    ensures AllEqual(Toggled(flags), ToggleResult(flags))
    ensures ToggleResult(Toggled(flags)) == !ToggleResult(flags)
  {
  }

  /**
   * Two toggles set every track to the first track's original state, so they
   * restore the original flags exactly when all tracks agreed to begin with.
   */
  lemma {:induction false} ToggleTwice(flags: seq<bool>)
    ensures |flags| > 0 ==> AllEqual(Toggled(Toggled(flags)), flags[0])
    ensures Toggled(Toggled(flags)) == flags <==> (|flags| == 0 || AllEqual(flags, flags[0]))
  {
    if |flags| > 0 {
      var t := Toggled(Toggled(flags));
      assert Toggled(flags)[0] == !flags[0];
      assert AllEqual(t, flags[0]);
      if t == flags {
        assert AllEqual(flags, flags[0]);
      }
      if AllEqual(flags, flags[0]) {
        assert t == flags;
      }
    }
  }

  /**
   * `toggleMediaTrack(stream, kind)`: no stream, or no track of the kind, reports
   * `false` and changes nothing; otherwise every track of the kind is set to the
   * negation of the first one's state, which is returned. The other kind's
   * tracks are never touched.
   */
  method ToggleMediaTrack(stream: MediaStream?, kind: TrackKind) returns (newState: bool)
    requires stream != null ==> stream.Valid()
    modifies if stream != null then {stream.Tracks(kind)} else {}
    ensures stream == null ==> !newState
    ensures stream != null ==> newState == ToggleResult(old(stream.Tracks(kind)[..]))
    ensures stream != null ==> stream.Tracks(kind)[..] == Toggled(old(stream.Tracks(kind)[..]))
    ensures stream != null ==> unchanged(stream.Tracks(Other(kind)))
  {
    if stream == null {
      return false;
    }
    var tracks := stream.Tracks(kind);
    if tracks.Length == 0 {
      return false;
    }
    var currentState := tracks[0];
    newState := !currentState;
    for i := 0 to tracks.Length
      invariant forall j :: 0 <= j < i ==> tracks[j] == newState
      invariant forall j :: i <= j < tracks.Length ==> tracks[j] == old(tracks[j])
    {
      tracks[i] := newState;
    }
  }
}
