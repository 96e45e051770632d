/** ui/src/pages/LibraryPage.jsx: the catalog browser. It keeps its own copy
    of the catalog (`tracks`) and a search string, filters the cards by the
    search, and drives the shared queue through `playTrack` and
    `removeTrack`. */
module Library {
  import opened Wrappers
  import opened Records
  import opened Text
  import Seqs
  import Queue
  import App

  /** `track.uploader || ""`. */
  function UploaderText(t: Track): string
  {
    OrElse(t.uploader, "")
  }

  /** A card matches when its lower-cased title or uploader contains the
      lower-cased search string; the empty search matches every card. */
  predicate Matches(t: Track, search: string): (r: bool)
    ensures search == "" ==> r
  {
    IncludesEmpty(Lower(t.title));
    Includes(Lower(t.title), Lower(search)) || Includes(Lower(UploaderText(t)), Lower(search))
  }

  /** A card matches exactly when the lower-cased search occurs at some
      position of its lower-cased title or of its lower-cased uploader. */
  lemma MatchesAt(t: Track, search: string)
    ensures Matches(t, search) <==> exists i: nat ::
      OccursAt(Lower(t.title), Lower(search), i) || OccursAt(Lower(UploaderText(t)), Lower(search), i)
  {
    var title, uploader, part := Lower(t.title), Lower(UploaderText(t)), Lower(search);
    IncludesAt(title, part);
    IncludesAt(uploader, part);
    if Includes(title, part) {
      var i: nat :| OccursAt(title, part, i);
      assert OccursAt(title, part, i) || OccursAt(uploader, part, i);
      assert Matches(t, search);
    } else if Includes(uploader, part) {
      var i: nat :| OccursAt(uploader, part, i);
      assert OccursAt(title, part, i) || OccursAt(uploader, part, i);
      assert Matches(t, search);
    } else {
      forall i: nat ensures !OccursAt(title, part, i) && !OccursAt(uploader, part, i) {
      }
      assert !Matches(t, search);
    }
  }

  /** `filteredTracks`: the matching tracks, in catalog order, each as often
      as in the catalog. */
  function FilteredTracks(tracks: seq<Track>, search: string): (r: seq<Track>)
    ensures Seqs.IsSubsequence(r, tracks)
    ensures forall t :: multiset(r)[t] == if Matches(t, search) then multiset(tracks)[t] else 0
    ensures forall t :: t in r <==> t in tracks && Matches(t, search)
  {
    Seqs.FilterSelects(tracks, (t: Track) => Matches(t, search));
    Seqs.Filter(tracks, (t: Track) => Matches(t, search))
  }

  /** An empty search shows the whole catalog. */
  lemma EmptySearchKeepsAll(tracks: seq<Track>)
    ensures FilteredTracks(tracks, "") == tracks
  {
    Seqs.FilterKeepsAll(tracks, (t: Track) => Matches(t, ""));
  }

  /** The search ignores letter case: two searches that lower-case alike
      show the same cards. */
  lemma SearchIgnoresCase(tracks: seq<Track>, s1: string, s2: string)
    requires Lower(s1) == Lower(s2)
    ensures FilteredTracks(tracks, s1) == FilteredTracks(tracks, s2)
  {
    Seqs.FilterCongruent(tracks, (t: Track) => Matches(t, s1), (t: Track) => Matches(t, s2));
  }

  /** `isCurrent`: the entry under the cursor has the card's audio URL;
      a cursor outside the playlist makes no card current. */
  predicate IsCurrent(s: Queue.QueueState, card: Track): (r: bool)
    ensures r <==> Queue.CursorValid(s) && s.playlist[s.index].audio == card.audio
  {
    Queue.Current(s).Some? && Queue.Current(s).value.audio == card.audio
  }

  /** The card shows Pause (rather than Play): only the current card, and
      only while playing. */
  predicate ShowsPause(s: Queue.QueueState, card: Track): (r: bool)
    ensures r ==> Queue.CursorValid(s) && s.playlist[s.index].audio == card.audio
    ensures !s.playing ==> !r
  {
    IsCurrent(s, card) && s.playing
  }

  /** With no duplicate audio in the playlist, clicking a card flips its
      icon: a card showing Pause shows Play afterwards, and every other
      card shows Pause afterwards. */
  lemma PlayTrackFlipsIcon(s: Queue.QueueState, card: Track)
    requires Queue.AudioUnique(s.playlist)
    ensures ShowsPause(Queue.PlayTrack(s, card), card) <==> !ShowsPause(s, card)
  {
    if Queue.CursorValid(s) {
      Queue.FindIndexUnique(s.playlist, s.index);
    }
  }

  class LibraryPage {
    const session: App.Session
    var tracks: seq<Track>
    var search: string
    var loading: bool

    /** The page as first rendered: no tracks, empty search, loading. */
    constructor (session: App.Session)
      ensures this.session == session
      ensures tracks == [] && search == "" && loading
    {
      this.session := session;
      tracks := [];
      search := "";
      loading := true;
    }

    /** `fetchDownloads`: the catalog on "success", otherwise (another
        status or a failed request) an empty list; loading ends either way. */
    method FetchDownloads(response: Fetched<ListReply>)
      modifies this`tracks, this`loading
      ensures tracks == if response.Answered? && response.body.status == "success"
                        then response.body.downloads else []
      ensures !loading
    {
      loading := true;
      if response.Answered? && response.body.status == "success" {
        tracks := response.body.downloads;
      } else {
        tracks := [];
      }
      loading := false;
    }

    /** The search box's `onChange`. */
    method SetSearch(text: string)
      modifies this`search
      ensures search == text
    {
      search := text;
    }

    /** `playTrack(track)`. */
    method PlayTrack(track: Track)
      modifies session
      ensures session.State() == Queue.PlayTrack(old(session.State()), track)
    {
      var existingIndex := Queue.FindIndex(session.playlist, track.audio);
      if existingIndex != -1 {
        var wasCurrent := session.currentTrackIndex == existingIndex;
        session.currentTrackIndex := existingIndex;
        if wasCurrent {
          session.isPlaying := !session.isPlaying;
        } else {
          session.isPlaying := true;
        }
      } else {
        var newPlaylist := session.playlist + [track];
        session.playlist := newPlaylist;
        session.currentTrackIndex := |newPlaylist| - 1;
        session.isPlaying := true;
      }
    }

    /** `removeTrack(id)`: on a "removed" reply the id leaves the page's
        catalog and the queue, and the cursor is reset by what `clicked`,
        the queue as the handler captured it at the click, showed as
        current; any other reply or a failed request changes nothing. */
    method RemoveTrack(id: string, clicked: Queue.QueueState, response: Fetched<RemoveReply>)
      modifies this`tracks, session
      ensures response.Answered? && response.body.status == "removed" ==>
        tracks == WithoutId(old(tracks), id)
        && session.State() == Queue.RemoveSeen(old(session.State()), clicked, id)
      ensures !(response.Answered? && response.body.status == "removed") ==>
        tracks == old(tracks) && session.State() == old(session.State())
    {
      if response.NetworkError? || response.body.status != "removed" {
        return;
      }
      tracks := WithoutId(tracks, id);
      var wasCurrent := Queue.Current(clicked).Some? && Queue.Current(clicked).value.id == Some(id);
      session.playlist := WithoutId(session.playlist, id);
      if wasCurrent {
        session.currentTrackIndex := 0;
      }
    }
  }
}
