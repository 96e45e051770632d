/** ui/src/App.jsx: the shared music state, owned by the application shell
    and handed to the pages and the player. */
module App {
  import opened Records
  import Queue

  class Session {
    var playlist: seq<Track>
    var currentTrackIndex: nat
    var isPlaying: bool

    /** The queue these three state variables hold. */
    function State(): Queue.QueueState
      reads this
    {
      Queue.QueueState(playlist, currentTrackIndex, isPlaying)
    }

    /** The initial state: empty playlist, cursor 0, not playing. */
    constructor ()
      ensures State() == Queue.Initial
    {
      playlist := [];
      currentTrackIndex := 0;
      isPlaying := false;
    }

    /** `fetchTracks` on start-up: a "success" reply replaces the playlist
        wholesale; any other reply, or a failed request, leaves it. The
        cursor and the playing flag are not touched. */
    method FetchTracks(response: Fetched<ListReply>)
      modifies this`playlist
      ensures response.Answered? && response.body.status == "success" ==>
        playlist == response.body.downloads
      ensures !(response.Answered? && response.body.status == "success") ==>
        playlist == old(playlist)
    {
      if response.Answered? && response.body.status == "success" {
        playlist := response.body.downloads;
      }
    }

    /** `addTrack(track)`: activate the queued entry with the same audio
        URL, or append the track and activate it. */
    method AddTrack(track: Track)
      modifies this
      ensures State() == Queue.Add(old(State()), track)
    {
      var existingIndex := Queue.FindIndex(playlist, track.audio);
      if existingIndex != -1 {
        currentTrackIndex := existingIndex;
        isPlaying := true;
        return;
      }
      var newPlaylist := playlist + [track];
      currentTrackIndex := |newPlaylist| - 1;
      isPlaying := true;
      playlist := newPlaylist;
    }
  }
}
