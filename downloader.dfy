/** ui/src/pages/DownloadPage.jsx: the form that submits a URL to the
    backend and, once the backend has answered, queues the track. The
    client does not poll `/status`: a "started" answer is treated as
    finished at once. */
module Downloader {
  import opened Wrappers
  import opened Records
  import Text
  import Queue
  import App
  import Catalog

  /** `res.data.video_id || res.data.entry?.id`. */
  function VideoIdOf(reply: DownloadReply): (r: Option<string>)
    ensures Truthy(reply.videoId) ==> r == reply.videoId
    ensures !Truthy(reply.videoId) && reply.entry.None? ==> r == None
    ensures !Truthy(reply.videoId) && reply.entry.Some? ==> r == reply.entry.value.id
  {
    Or(reply.videoId, if reply.entry.Some? then reply.entry.value.id else None)
  }

  /** JavaScript's template-string rendering of an optional string. */
  function Interpolate(s: Option<string>): string
  {
    if s.Some? then s.value else "undefined"
  }

  /** `http://localhost:8000/files/${videoId}.mp3`: the client always
      assumes mp3. */
  function AudioFileUrl(videoId: Option<string>): (r: string)
    ensures videoId.Some? ==> r == Catalog.BackendUrl + "/files/" + videoId.value + ".mp3"
    ensures videoId.None? ==> r == Catalog.BackendUrl + "/files/undefined.mp3"
  {
    Catalog.BackendUrl + "/files/" + Interpolate(videoId) + ".mp3"
  }

  /** The track handed to `addTrack`. It carries no `id` and no upload
      date; an undefined title renders as the empty string. */
  function TrackFromReply(reply: DownloadReply): (t: Track)
    ensures t.id == None && t.uploadDate == None
    ensures t.audio == AudioFileUrl(VideoIdOf(reply))
    ensures reply.entry.Some? && reply.entry.value.title != "" ==> t.title == reply.entry.value.title
    ensures !(reply.entry.Some? && reply.entry.value.title != "") ==> t.title == VideoIdOf(reply).GetOr("")
    ensures reply.entry.Some? && Truthy(reply.entry.value.uploader) ==> t.uploader == reply.entry.value.uploader
    ensures !(reply.entry.Some? && Truthy(reply.entry.value.uploader)) ==> t.uploader == Some("Unknown Artist")
    ensures reply.entry.Some? && reply.entry.value.duration.Truthy() ==> t.duration == reply.entry.value.duration
    ensures !(reply.entry.Some? && reply.entry.value.duration.Truthy()) ==> t.duration == Clock("0:00")
    ensures reply.entry.Some? && Truthy(reply.entry.value.thumbnail) ==> t.thumbnail == reply.entry.value.thumbnail
    ensures !(reply.entry.Some? && Truthy(reply.entry.value.thumbnail)) ==> t.thumbnail == Some("")
  {
    var videoId := VideoIdOf(reply);
    var entry := reply.entry;
    Track(
      id := None,
      title := if entry.Some? && entry.value.title != "" then entry.value.title else videoId.GetOr(""),
      uploader := Some(OrElse(if entry.Some? then entry.value.uploader else None, "Unknown Artist")),
      duration := if entry.Some? && entry.value.duration.Truthy() then entry.value.duration else Clock("0:00"),
      thumbnail := Some(OrElse(if entry.Some? then entry.value.thumbnail else None, "")),
      audio := AudioFileUrl(videoId),
      uploadDate := None)
  }

  /** The statuses on which the page queues the track. */
  predicate Accepted(status: string)
  {
    status == "started" || status == "already_downloaded"
  }

  /** The message once the backend has answered, or `None` where the
      "Downloading..." message stays. */
  function ReplyMessage(reply: DownloadReply): (r: Option<string>)
    ensures reply.status == "started" ==> r == Some("Download complete!")
    ensures reply.status == "already_downloaded" ==> r == Some("File already exists.")
    ensures reply.status == "error" ==> r == Some("Error: " + OrElse(reply.error, "Unknown error"))
    ensures r.None? <==> !Accepted(reply.status) && reply.status != "error"
  {
    if reply.status == "started" then Some("Download complete!")
    else if reply.status == "already_downloaded" then Some("File already exists.")
    else if reply.status == "error" then Some("Error: " + OrElse(reply.error, "Unknown error"))
    else None
  }

  /** For a fresh download the client's audio URL is the one the catalog
      will store once an mp3 download finishes. (An empty id is falsy, so
      the client would fall back to `undefined`.) */
  lemma StartedUrlMatchesCatalog(videoId: string, meta: Catalog.Metadata, thumbExists: bool)
    requires videoId != ""
    ensures TrackFromReply(DownloadReply("started", Some(videoId), None, None)).audio
      == Catalog.BuildEntry(meta, videoId, Catalog.Mp3, thumbExists).audio
  {
  }

  /** An already-downloaded mp3 entry is queued under its own audio URL. */
  lemma ExistingUrlMatchesCatalog(videoId: string, meta: Catalog.Metadata, thumbExists: bool)
    ensures var entry := Catalog.BuildEntry(meta, videoId, Catalog.Mp3, thumbExists);
      TrackFromReply(DownloadReply("already_downloaded", None, Some(entry), None)).audio == entry.audio
  {
  }

  /** A "started" answer queues a track named after the video id with the
      page's fallbacks. */
  lemma StartedTrackFallbacks(videoId: string)
    requires videoId != ""
    ensures TrackFromReply(DownloadReply("started", Some(videoId), None, None))
      == Track(None, videoId, Some("Unknown Artist"), Clock("0:00"), Some(""),
               Catalog.BackendUrl + "/files/" + videoId + ".mp3", None)
  {
  }

  /** Asking again for a video the library has already queued (as an mp3
      catalog entry) does not grow the playlist: the backend answers
      "already_downloaded" with the stored entry, and `addTrack` finds its
      audio URL and plays that entry. */
  lemma RedownloadExistingKeepsPlaylist(s: Queue.QueueState, k: nat, videoId: string, meta: Catalog.Metadata, thumbExists: bool)
    requires k < |s.playlist|
    requires s.playlist[k] == Catalog.BuildEntry(meta, videoId, Catalog.Mp3, thumbExists)
    ensures var r := Queue.Add(s, TrackFromReply(DownloadReply("already_downloaded", None, Some(s.playlist[k]), None)));
      r.playlist == s.playlist && r.playing && r.playlist[r.index].audio == s.playlist[k].audio
  {
    ExistingUrlMatchesCatalog(videoId, meta, thumbExists);
  }

  /** The same holds for a "started" answer about a queued mp3 entry. The
      backend answers "started" only for an id it has not stored, so here
      the client's playlist is stale: it still holds an entry the backend
      no longer stores. The playlist is fetched once, at start-up, so a
      removal made from another window never reaches it. */
  lemma RedownloadKeepsPlaylist(s: Queue.QueueState, k: nat, videoId: string, meta: Catalog.Metadata, thumbExists: bool)
    requires videoId != "" && k < |s.playlist|
    requires s.playlist[k] == Catalog.BuildEntry(meta, videoId, Catalog.Mp3, thumbExists)
    ensures var r := Queue.Add(s, TrackFromReply(DownloadReply("started", Some(videoId), None, None)));
      r.playlist == s.playlist && r.playing && r.playlist[r.index].audio == s.playlist[k].audio
  {
    var track := TrackFromReply(DownloadReply("started", Some(videoId), None, None));
    StartedUrlMatchesCatalog(videoId, meta, thumbExists);
    assert s.playlist[k].audio == track.audio;
  }

  class DownloadPage {
    const session: App.Session
    var url: string
    var downloading: bool
    var message: string
    var audioUrl: string

    constructor (session: App.Session)
      ensures this.session == session
      ensures url == "" && !downloading && message == "" && audioUrl == ""
    {
      this.session := session;
      url, downloading, message, audioUrl := "", false, "", "";
    }

    /** The URL input's `onChange`. */
    method SetUrl(text: string)
      modifies this`url
      ensures url == text
    {
      url := text;
    }

    /** The synchronous part of `handleDownload`: a blank URL returns at
        once with nothing changed; otherwise the form enters its
        downloading state and the request is sent. */
    method BeginDownload() returns (sent: bool)
      modifies this`downloading, this`message, this`audioUrl
      ensures sent <==> !Text.IsBlank(url)
      ensures !sent ==> downloading == old(downloading) && message == old(message) && audioUrl == old(audioUrl)
      ensures sent ==> downloading && message == "Downloading..." && audioUrl == ""
    {
      if Text.IsBlank(url) {
        return false;
      }
      downloading, message, audioUrl := true, "Downloading...", "";
      return true;
    }

    /** The part of `handleDownload` after the request settles. An accepted
        answer shows the file, sets its message and queues exactly one
        track; an "error" answer shows the backend's error; a failed
        request shows its message; any other answer keeps the current
        message. `downloading` is false afterwards on every path. */
    method FinishDownload(outcome: Fetched<DownloadReply>)
      modifies this`downloading, this`message, this`audioUrl, session
      ensures !downloading
      ensures outcome.NetworkError? ==>
        message == "Error: " + outcome.message && audioUrl == old(audioUrl)
        && session.State() == old(session.State())
      ensures outcome.Answered? && Accepted(outcome.body.status) ==>
        audioUrl == AudioFileUrl(VideoIdOf(outcome.body))
        && message == ReplyMessage(outcome.body).value
        && session.State() == Queue.Add(old(session.State()), TrackFromReply(outcome.body))
      ensures outcome.Answered? && !Accepted(outcome.body.status) ==>
        message == ReplyMessage(outcome.body).GetOr(old(message)) && audioUrl == old(audioUrl)
        && session.State() == old(session.State())
    {
      if outcome.NetworkError? {
        message := "Error: " + outcome.message;
      } else {
        var body := outcome.body;
        var videoId := VideoIdOf(body);
        var audioFileUrl := AudioFileUrl(videoId);
        if body.status == "started" || body.status == "already_downloaded" {
          audioUrl := audioFileUrl;
          message := if body.status == "started" then "Download complete!" else "File already exists.";
          session.AddTrack(TrackFromReply(body));
        } else if body.status == "error" {
          message := "Error: " + OrElse(body.error, "Unknown error");
        }
      }
      downloading := false;
    }

    /** The whole `handleDownload`, with `outcome` the way the request
        would settle. */
    method HandleDownload(outcome: Fetched<DownloadReply>)
      modifies this`downloading, this`message, this`audioUrl, session
      ensures Text.IsBlank(url) ==>
        downloading == old(downloading) && message == old(message) && audioUrl == old(audioUrl)
        && session.State() == old(session.State())
      ensures !Text.IsBlank(url) ==> !downloading
      ensures !Text.IsBlank(url) && outcome.NetworkError? ==>
        message == "Error: " + outcome.message && audioUrl == ""
        && session.State() == old(session.State())
      ensures !Text.IsBlank(url) && outcome.Answered? && Accepted(outcome.body.status) ==>
        audioUrl == AudioFileUrl(VideoIdOf(outcome.body))
        && message == ReplyMessage(outcome.body).value
        && session.State() == Queue.Add(old(session.State()), TrackFromReply(outcome.body))
      ensures !Text.IsBlank(url) && outcome.Answered? && !Accepted(outcome.body.status) ==>
        message == ReplyMessage(outcome.body).GetOr("Downloading...") && audioUrl == ""
        && session.State() == old(session.State())
    {
      var sent := BeginDownload();
      if sent {
        FinishDownload(outcome);
      }
    }
  }
}
