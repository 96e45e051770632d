/** The playback queue shared by the client's pages (ui/src/App.jsx owns
    it): the ordered playlist, the cursor `currentTrackIndex` and the
    `isPlaying` flag, with the two add-or-activate operations (App's
    `addTrack`, the library's `playTrack`) and the library's removal. The
    cursor is a plain number: nothing keeps it inside the playlist, and
    the player falls back to a placeholder when it is not. */
module Queue {
  import opened Wrappers
  import opened Records
  import Seqs

  datatype QueueState = QueueState(playlist: seq<Track>, index: nat, playing: bool)

  /** `useState([])`, `useState(0)`, `useState(false)`. */
  const Initial := QueueState([], 0, false)

  /** The cursor names an entry of the playlist. */
  predicate CursorValid(s: QueueState)
  {
    s.index < |s.playlist|
  }

  /** No two entries share an `audio` URL. */
  predicate AudioUnique(playlist: seq<Track>)
  {
    forall i, j :: 0 <= i < j < |playlist| ==> playlist[i].audio != playlist[j].audio
  }

  /** `playlist.findIndex((t) => t.audio === audio)`: the first position
      with that audio URL, or -1 when there is none. */
  function FindIndex(playlist: seq<Track>, audio: string): (r: int)
    ensures -1 <= r < |playlist|
    ensures r == -1 <==> forall i :: 0 <= i < |playlist| ==> playlist[i].audio != audio
    ensures r != -1 ==> playlist[r].audio == audio
    ensures r != -1 ==> forall j :: 0 <= j < r ==> playlist[j].audio != audio
  {
    if playlist == [] then -1
    else if playlist[0].audio == audio then 0
    else
      var k := FindIndex(playlist[1..], audio);
      assert forall i :: 1 <= i < |playlist| ==> playlist[i] == playlist[1..][i - 1];
      if k == -1 then -1 else k + 1
  }

  /** In a list without duplicate audio, the match is the only one. */
  lemma FindIndexUnique(playlist: seq<Track>, k: nat)
    requires AudioUnique(playlist) && k < |playlist|
    ensures FindIndex(playlist, playlist[k].audio) == k
  {
  }

  /** App's `addTrack`: an audio URL already queued becomes current, a new
      one is appended and becomes current; either way playback starts.
      Afterwards the cursor names an entry with the added audio URL, the
      old entries are still in place and at most that one was added. */
  function Add(s: QueueState, track: Track): (r: QueueState)
    ensures CursorValid(r) && r.playing
    ensures r.playlist[r.index].audio == track.audio
    ensures r.playlist == s.playlist || r.playlist == s.playlist + [track]
    ensures r.playlist == s.playlist <==> exists i :: 0 <= i < |s.playlist| && s.playlist[i].audio == track.audio
  {
    var k := FindIndex(s.playlist, track.audio);
    if k != -1 then QueueState(s.playlist, k, true)
    else QueueState(s.playlist + [track], |s.playlist|, true)
  }

  /** `addTrack` of a queued audio URL keeps the playlist and moves the
      cursor to its first occurrence. */
  lemma AddExisting(s: QueueState, track: Track, k: nat)
    requires k < |s.playlist| && s.playlist[k].audio == track.audio
    requires forall j :: 0 <= j < k ==> s.playlist[j].audio != track.audio
    ensures Add(s, track) == QueueState(s.playlist, k, true)
  {
  }

  /** `addTrack` of a new audio URL appends it and points the cursor at it. */
  lemma AddNew(s: QueueState, track: Track)
    requires forall i :: 0 <= i < |s.playlist| ==> s.playlist[i].audio != track.audio
    ensures Add(s, track) == QueueState(s.playlist + [track], |s.playlist|, true)
  {
  }

  /** `addTrack` never introduces a second entry with the same audio. */
  lemma AddKeepsAudioUnique(s: QueueState, track: Track)
    requires AudioUnique(s.playlist)
    ensures AudioUnique(Add(s, track).playlist)
  {
  }

  /** Adding the same track twice is the same as adding it once. */
  lemma AddIdempotent(s: QueueState, track: Track)
    ensures Add(Add(s, track), track) == Add(s, track)
  {
    var r := Add(s, track);
    if FindIndex(s.playlist, track.audio) == -1 {
      assert r.playlist[|s.playlist|] == track;
      assert FindIndex(r.playlist, track.audio) == |s.playlist|;
    }
  }

  /** The library's `playTrack`: like `addTrack`, except that the entry
      already under the cursor toggles playback instead of forcing it on.
      Afterwards the cursor names an entry with the clicked audio URL, at
      most that entry was appended, and playback is off only when the
      click paused the entry that was already current and playing. */
  function PlayTrack(s: QueueState, track: Track): (r: QueueState)
    ensures CursorValid(r)
    ensures r.playlist[r.index].audio == track.audio
    ensures r.playlist == s.playlist || r.playlist == s.playlist + [track]
    ensures r.playlist == s.playlist <==> exists i :: 0 <= i < |s.playlist| && s.playlist[i].audio == track.audio
    ensures !r.playing ==> r.index == s.index && s.playing && r.playlist == s.playlist
  {
    var k := FindIndex(s.playlist, track.audio);
    if k != -1 then QueueState(s.playlist, k, if s.index == k then !s.playing else true)
    else QueueState(s.playlist + [track], |s.playlist|, true)
  }

  /** The two add-or-activate paths differ exactly on the current entry:
      there `playTrack` toggles, everywhere else it agrees with `addTrack`. */
  lemma PlayTrackVersusAdd(s: QueueState, track: Track)
    ensures FindIndex(s.playlist, track.audio) == s.index as int ==>
      PlayTrack(s, track) == s.(playing := !s.playing)
    ensures FindIndex(s.playlist, track.audio) != s.index as int ==>
      PlayTrack(s, track) == Add(s, track)
  {
  }

  /** Clicking the current card twice restores the state. */
  lemma PlayTrackTwiceOnCurrent(s: QueueState, track: Track)
    requires CursorValid(s) && AudioUnique(s.playlist) && s.playlist[s.index] == track
    ensures PlayTrack(PlayTrack(s, track), track) == s
  {
    FindIndexUnique(s.playlist, s.index);
  }

  /** The entry under the cursor, if the cursor names one
      (`playlist[currentTrackIndex]` is `undefined` otherwise). */
  function Current(s: QueueState): (r: Option<Track>)
    ensures r.Some? <==> CursorValid(s)
    ensures r.Some? ==> r.value in s.playlist
  {
    if s.index < |s.playlist| then Some(s.playlist[s.index]) else None
  }

  /** The library's `removeTrack` after the backend confirms: every entry
      with the id goes; the cursor is reset to 0 only when the current
      entry had that id, and is otherwise left as the same number.
      Afterwards no entry has the id, the rest keep their order, and
      playback is untouched. */
  function Remove(s: QueueState, id: string): (r: QueueState)
    ensures Seqs.IsSubsequence(r.playlist, s.playlist)
    ensures forall t :: t in r.playlist <==> t in s.playlist && t.id != Some(id)
    ensures r.index == 0 || r.index == s.index
    ensures r.playing == s.playing
  {
    var current := Current(s);
    QueueState(
      WithoutId(s.playlist, id),
      if current.Some? && current.value.id == Some(id) then 0 else s.index,
      s.playing)
  }

  /** `removeTrack` as the page runs it: the playlist is filtered as it
      stands when the backend's reply arrives, but the test for resetting
      the cursor reads `seen`, the playlist and cursor the button's
      handler captured when it was clicked. */
  function RemoveSeen(s: QueueState, seen: QueueState, id: string): (r: QueueState)
    ensures Seqs.IsSubsequence(r.playlist, s.playlist)
    ensures forall t :: t in r.playlist <==> t in s.playlist && t.id != Some(id)
    ensures r.index == 0 || r.index == s.index
    ensures r.playing == s.playing
  {
    var current := Current(seen);
    QueueState(
      WithoutId(s.playlist, id),
      if current.Some? && current.value.id == Some(id) then 0 else s.index,
      s.playing)
  }

  /** When nothing changed the queue between the click and the reply, the
      page's removal is `Remove`. */
  lemma RemoveSeenUnchanged(s: QueueState, id: string)
    ensures RemoveSeen(s, s, id) == Remove(s, id)
  {
  }

  /** When the queue moved on between the click and the reply (another
      card was played meanwhile), the cursor is still reset to 0 if the
      entry current at click time had the id, though the entry current
      now does not. */
  lemma RemoveSeenStale(s: QueueState, seen: QueueState, id: string)
    requires Current(seen).Some? && Current(seen).value.id == Some(id)
    requires CursorValid(s) && s.playlist[s.index].id != Some(id)
    ensures RemoveSeen(s, seen, id).index == 0
    ensures Remove(s, id).index == s.index
  {
  }

  /** The mirror case: the entry current at click time lacked the id, but
      the entry current when the reply arrives has it and is removed. The
      cursor keeps its number, so it now names another track or points
      past the end. */
  lemma RemoveSeenStaleKept(s: QueueState, seen: QueueState, id: string)
    requires !(Current(seen).Some? && Current(seen).value.id == Some(id))
    requires CursorValid(s) && s.playlist[s.index].id == Some(id)
    ensures RemoveSeen(s, seen, id).index == s.index
    ensures Remove(s, id).index == 0
    ensures Current(RemoveSeen(s, seen, id)) != Current(s)
  {
    var r := RemoveSeen(s, seen, id);
    if CursorValid(r) {
      assert r.playlist[r.index] in r.playlist;
    }
  }

  /** The cursor changes only when it named the removed track, and then it
      becomes 0; playback is never touched. */
  lemma RemoveCursor(s: QueueState, id: string)
    ensures var r := Remove(s, id);
      && r.playing == s.playing
      && (Current(s).Some? && Current(s).value.id == Some(id) ==> r.index == 0)
      && (!(Current(s).Some? && Current(s).value.id == Some(id)) ==> r.index == s.index)
  {
  }

  /** When the current entry survives and nothing before it is removed,
      the cursor still names the same track. */
  lemma {:induction false} RemoveKeepsCurrent(s: QueueState, id: string)
    requires CursorValid(s) && s.playlist[s.index].id != Some(id)
    requires forall j :: 0 <= j < s.index ==> s.playlist[j].id != Some(id)
    ensures CursorValid(Remove(s, id))
    ensures Current(Remove(s, id)) == Current(s)
  {
    Seqs.FilterKeepsPosition(s.playlist, (t: Track) => t.id != Some(id), s.index);
  }

  /** Removing an earlier entry while the last one is current leaves the
      cursor where it was, which is now past the end: the cursor is not
      shifted down, so the player loses its track. */
  lemma {:induction false} RemoveBeforeLastCurrent(s: QueueState, id: string, k: nat)
    requires s.index + 1 == |s.playlist| && s.playlist[s.index].id != Some(id)
    requires k < s.index && s.playlist[k].id == Some(id)
    ensures Remove(s, id).index == s.index
    ensures !CursorValid(Remove(s, id))
  {
    Seqs.FilterDropShrinks(s.playlist, (t: Track) => t.id != Some(id), k);
  }
}
