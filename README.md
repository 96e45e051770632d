# YTADL playback queue, player and download catalog in Dafny

This project models the core of YTADL, a YouTube audio downloader with a
small music player. It has two parts.

- The React client (`ui/src`):
  - the shared playback queue owned by the application shell: the playlist, the cursor `currentTrackIndex` and the flag `isPlaying`;
  - the library page, which plays, removes and searches catalog tracks;
  - the player bar: next, previous, shuffle, repeat, end of track, the track-load and play/pause effects, and seek scrubbing;
  - the download form.
- The FastAPI backend (`appconfig/app.py`):
  - the text sanitiser;
  - the catalog record built for a finished download;
  - the `download_status` job tracker;
  - the endpoints `download`, `status`, `list` and `remove`, working over an in-memory metadata list.

Modules, one per source component:

| module | file | models |
|---|---|---|
| `Wrappers` | wrappers.dfy | optional (missing or null) values |
| `Seqs` | seqs.dfy | the filter, subsequence and reverse helpers |
| `Text` | text.dfy | ASCII `toLowerCase`, `includes`, and `trim()` emptiness |
| `Records` | records.dfy | the track record, the JSON reply bodies, JavaScript `||` on strings, remove-by-id |
| `Catalog` | catalog.dfy | `appconfig/app.py`; the class `Server` holds `downloads.json` and `download_status` |
| `Queue` | queue.dfy | the queue as a value, and its operations as specification functions |
| `App` | app.dfy | `ui/src/App.jsx`; the class `Session` holds the three shared state variables |
| `Library` | library.dfy | `ui/src/pages/LibraryPage.jsx`; the class `LibraryPage` |
| `Playback` | playback.dfy | `ui/src/components/MusicPlayer.jsx`; the class `MusicPlayer` |
| `Downloader` | downloader.dfy | `ui/src/pages/DownloadPage.jsx`; the class `DownloadPage` |

The code that changes state becomes classes.
- Its methods carry `modifies` clauses.
- The queue updates made from the download form and the library are proved against pure functions of `Queue`. For example, `App.Session.AddTrack` ensures `State() == Queue.Add(old(State()), track)`, and `Library.LibraryPage.RemoveTrack` ensures `session.State() == Queue.RemoveSeen(...)`. The catalog's stored records are proved against pure functions of `Catalog` such as `Catalog.Saved` and `Catalog.SetsFor`.
- The other methods state each new field value directly. This covers the player's own cursor, flag and element moves (`NextTrack`, `PrevTrack`, `HandleEnded`, `TogglePlay`, `LoadTrack`, `SyncPlayback`), the fetch of the playlist (`App.Session.FetchTracks`) and the download form's fields. `NextTrack` and `PrevTrack` state the new cursor through the predicates `NextChoice` and `PrevChoice`.
- Most frames name single fields (`modifies this`progress`, `session`currentTrackIndex`). A method whose frame is a whole object says in its `ensures` what becomes of every field of that object. That covers `Catalog.Server`'s methods, `App.Session.AddTrack`, the library's session updates, and the player's updates of the session in `LoadTrack`, `SyncPlayback` and `HandleEnded`.
- The lemmas about those functions state what the source promises: dedup, cursor validity, idempotence, the toggle, id uniqueness and the job lifecycle.

The outside world is turned into parameters:
- Every axios call becomes a `Fetched<T>` parameter: the reply body, or a thrown error with its message.
- Every outcome of yt-dlp, and whether the thumbnail file exists, becomes a `TaskRun` or `IdProbe` parameter.
- A media element play promise becomes a boolean saying whether the element accepted `play()`.
- Mouse geometry becomes the percent the handler computes.

The client does not poll `/status`. `handleDownload` queues the track as soon as the backend answers "started", before the file exists (ui/src/pages/DownloadPage.jsx:27-38). The model follows that code.

Three consequences of the code are proved as stated behaviour:
- `Queue.RemoveBeforeLastCurrent`: removing a track that lies before the current last track leaves the cursor pointing past the end, so the player falls back to "No Track".
- `Playback.EndOfOnlyTrackRepeatAll`: with a single track, repeat "all" and no shuffle, the end of the track changes neither the cursor nor the audio URL. The track-load effect therefore does not run, and the ended element stays paused while `isPlaying` is still true.
- `Downloader.StartedUrlMatchesCatalog`: the URL the client queues equals the catalog's URL when the format is mp3 and the video id is not empty. The client never sends a format, so the backend uses its default, mp3 (appconfig/app.py:122).

## Model

| member | source | states |
|---|---|---|
| Records.Or | ui/src/pages/DownloadPage.jsx:24 | JavaScript `a \|\| b` gives one of its operands, truthy exactly when either operand is, and `a` whenever `a` is truthy |
| Records.OrAssociative | ui/src/pages/DownloadPage.jsx:24 | a chain of `\|\|` picks the same operand however it is grouped |
| Records.OrFalsyLeft | ui/src/pages/DownloadPage.jsx:24 | a falsy left operand is transparent, and `b \|\| b` is `b` |
| Records.OrElse | ui/src/pages/LibraryPage.jsx:70 | `a \|\| fallback` is the string of `a` or the fallback, empty exactly when both are falsy, and `a`'s string whenever `a` is truthy |
| Records.OrElseIsOr | ui/src/pages/LibraryPage.jsx:70 | `OrElse` agrees with `Or` given a present fallback |
| Records.WithoutId | ui/src/pages/LibraryPage.jsx:58-59 | the records without that id, as an order-preserving subsequence; each survivor keeps its multiplicity, every record with the id is gone, and records with no id stay |
| Text.Lower | ui/src/pages/LibraryPage.jsx:69-70 | lower-casing keeps the length, maps each character, and leaves no ASCII capital letter |
| Text.IncludesAt | ui/src/pages/LibraryPage.jsx:69-70 | `includes` holds exactly when the part occurs at some position |
| Text.IncludesEmpty | ui/src/pages/LibraryPage.jsx:69-70 | every string includes the empty string |
| App.Session.constructor | ui/src/App.jsx:12-14 | the queue starts with an empty playlist, index 0 and not playing |
| App.Session.FetchTracks | ui/src/App.jsx:17-29 | a "success" list reply replaces the playlist; another status or a failed request leaves it; the cursor and the flag are untouched |
| App.Session.AddTrack | ui/src/App.jsx:32-45 | the new state is `Queue.Add` of the old one |
| Queue.FindIndex | ui/src/App.jsx:34 | `findIndex` on audio: the first matching position, or -1 exactly when no entry matches |
| Queue.FindIndexUnique | ui/src/App.jsx:34 | with no duplicate audio, looking up entry k's audio finds k |
| Queue.AddExisting | ui/src/App.jsx:34-39 | a queued audio URL keeps the playlist, moves the cursor to its first occurrence and sets playing |
| Queue.AddNew | ui/src/App.jsx:40-43 | a new audio URL is appended, the cursor becomes the old length and playing is set |
| Queue.Add | ui/src/App.jsx:33-44 | afterwards the cursor is valid and names an entry with the added audio, and playing is on; the playlist is the old one, or the old one plus the track, and it is unchanged exactly when the audio was already queued |
| Queue.AddKeepsAudioUnique | ui/src/App.jsx:33-44 | adding never creates two entries with the same audio |
| Queue.AddIdempotent | ui/src/App.jsx:33-44 | adding a track twice gives the same state as adding it once |
| Library.LibraryPage.PlayTrack | ui/src/pages/LibraryPage.jsx:32-52 | the new state is `Queue.PlayTrack` of the old one |
| Queue.PlayTrack | ui/src/pages/LibraryPage.jsx:32-52 | afterwards the cursor is valid and names an entry with the clicked audio; the playlist is the old one, or the old one plus the track, and it is unchanged exactly when the audio was already queued; playing is off only when the click paused the entry that was current and playing |
| Queue.PlayTrackVersusAdd | ui/src/pages/LibraryPage.jsx:35-50 | on the current entry `playTrack` only flips playing; everywhere else it equals `addTrack` (switch and play, or append and play) |
| Queue.PlayTrackTwiceOnCurrent | ui/src/pages/LibraryPage.jsx:38-40 | clicking the current card twice restores the state |
| Library.LibraryPage.RemoveTrack | ui/src/pages/LibraryPage.jsx:54-65 | a "removed" reply drops the id from the page's tracks and gives the queue `Queue.RemoveSeen` of the reply-time queue and the click-time snapshot; any other reply or a failed request changes nothing |
| Queue.Current | ui/src/pages/LibraryPage.jsx:60 | `playlist[currentTrackIndex]` is an entry of the playlist exactly when the cursor is valid, and undefined otherwise |
| Queue.Remove | ui/src/pages/LibraryPage.jsx:58-60 | afterwards no entry has the id, the others keep their order, the cursor is 0 or its old number, and playing is untouched |
| Queue.RemoveSeen | ui/src/pages/LibraryPage.jsx:58-60 | the same guarantees when the cursor test reads the queue captured at the click |
| Queue.RemoveSeenUnchanged | ui/src/pages/LibraryPage.jsx:58-60 | with no change between click and reply, the page's removal is `Queue.Remove` |
| Queue.RemoveSeenStale | ui/src/pages/LibraryPage.jsx:60 | if the entry current at the click had the id but the entry current at the reply does not, the cursor is still reset to 0 |
| Queue.RemoveSeenStaleKept | ui/src/pages/LibraryPage.jsx:60 | if the entry current at the click lacked the id but the entry current at the reply has it, the cursor keeps its number and so no longer names that track (another one, or past the end) |
| Queue.RemoveCursor | ui/src/pages/LibraryPage.jsx:60 | the cursor becomes 0 exactly when the current entry had the removed id, otherwise it keeps its number; playing is untouched |
| Queue.RemoveKeepsCurrent | ui/src/pages/LibraryPage.jsx:59-60 | when the current entry survives and nothing before it is removed, the cursor still names the same track |
| Queue.RemoveBeforeLastCurrent | ui/src/pages/LibraryPage.jsx:59-60 | removing an earlier entry while the last one is current leaves the cursor past the end |
| Library.LibraryPage.constructor | ui/src/pages/LibraryPage.jsx:11-13 | the page starts with no tracks, an empty search and loading |
| Library.LibraryPage.FetchDownloads | ui/src/pages/LibraryPage.jsx:16-30 | the catalog on "success", otherwise an empty list; loading is false afterwards |
| Library.LibraryPage.SetSearch | ui/src/pages/LibraryPage.jsx:82 | only the search text changes |
| Library.Matches | ui/src/pages/LibraryPage.jsx:67-71 | the empty search matches every card |
| Library.MatchesAt | ui/src/pages/LibraryPage.jsx:67-71 | a card matches exactly when the lower-cased search occurs at some position of its lower-cased title or uploader |
| Seqs.FilterSelects | ui/src/pages/LibraryPage.jsx:67-71 | the filter is an order-preserving subsequence that keeps each selected element's multiplicity and nothing else |
| Library.FilteredTracks | ui/src/pages/LibraryPage.jsx:67-71 | the shown cards are an order-preserving subsequence of the tracks, keeping exactly the tracks whose lower-cased title or uploader contains the lower-cased search, each as often as in the catalog |
| Library.EmptySearchKeepsAll | ui/src/pages/LibraryPage.jsx:67-71 | an empty search shows every track |
| Seqs.FilterCongruent | ui/src/pages/LibraryPage.jsx:67-71 | filters that agree on every element select the same elements |
| Library.SearchIgnoresCase | ui/src/pages/LibraryPage.jsx:69-70 | two searches that lower-case alike show the same cards |
| Library.IsCurrent | ui/src/pages/LibraryPage.jsx:98 | a card is current exactly when the cursor is valid and the entry under it has the card's audio |
| Library.ShowsPause | ui/src/pages/LibraryPage.jsx:124 | only the current card can show Pause, and no card does while playback is off |
| Library.PlayTrackFlipsIcon | ui/src/pages/LibraryPage.jsx:98 | with no duplicate audio, clicking a card flips whether it shows Pause (current entry with its audio, and playing) |
| Playback.CycleRepeat | ui/src/components/MusicPlayer.jsx:163-167 | the repeat button always changes the mode |
| Playback.CycleRepeatThrice | ui/src/components/MusicPlayer.jsx:163-167 | three presses give back the mode, and two do not |
| Playback.NextIndex | ui/src/components/MusicPlayer.jsx:128-134 | the ring successor: a no-op on an empty list, i+1 inside, 0 after the last index |
| Playback.PrevIndex | ui/src/components/MusicPlayer.jsx:137-146 | the ring predecessor: a no-op on an empty list, n-1 from 0, i-1 otherwise |
| Playback.NextPrevInverse | ui/src/components/MusicPlayer.jsx:128-146 | on a valid cursor "previous" undoes "next" and "next" undoes "previous" |
| Playback.AdvanceModular | ui/src/components/MusicPlayer.jsx:133 | up to n presses of "next" move a valid cursor k places: `(i + k) % n` |
| Playback.AdvanceFullCircle | ui/src/components/MusicPlayer.jsx:133 | n presses of "next" return to the start |
| Playback.AdvanceReaches | ui/src/components/MusicPlayer.jsx:133 | within one round "next" reaches every index |
| Playback.AdvanceDistinct | ui/src/components/MusicPlayer.jsx:133 | within one round "next" never visits an index twice |
| Playback.Clamp | ui/src/components/MusicPlayer.jsx:99-102 | the result lies in [0, 100], equals the percent inside that range, and is 0 below it and 100 above it |
| Playback.CurrentTrack | ui/src/components/MusicPlayer.jsx:32-38 | the entry under the cursor, or the "No Track" placeholder with no audio |
| Playback.CurrentTrackIsQueueCurrent | ui/src/components/MusicPlayer.jsx:32-38 | the player's track is the queue's current entry, or the placeholder when the queue has none |
| Playback.MusicPlayer.constructor | ui/src/components/MusicPlayer.jsx:21-30 | progress 0, volume 70, not seeking, no shuffle, repeat off, first load pending, and an empty paused element |
| Playback.MusicPlayer.LoadTrack | ui/src/components/MusicPlayer.jsx:41-57 | no audio: nothing happens; a real track becomes the source at position 0 with an unknown duration (0); the first real load forces `isPlaying` false; each later load sets `isPlaying` to whether play was accepted |
| Playback.MusicPlayer.MetadataLoaded | ui/src/components/MusicPlayer.jsx:297-301 | the `<audio>` element's `loadedmetadata` (the component has no handler for it): the duration becomes the loaded track's positive length, and nothing else changes |
| Playback.MusicPlayer.SyncPlayback | ui/src/components/MusicPlayer.jsx:60-69 | the element's volume is volume/100; playing plays (a refused play clears `isPlaying`), otherwise the element pauses |
| Playback.MusicPlayer.HandleTimeUpdate | ui/src/components/MusicPlayer.jsx:72-78 | progress becomes position/duration × 100 only when the duration is known and no drag is in progress |
| Playback.MusicPlayer.SeekToPercent | ui/src/components/MusicPlayer.jsx:81-85 | with a known duration the position becomes percent/100 × duration and one seek is counted; with an unknown duration the position and the seek count stay |
| Playback.MusicPlayer.HandleSeek | ui/src/components/MusicPlayer.jsx:87-92 | a click shows the percent without clamping, and seeks to it when the duration is known |
| Playback.MusicPlayer.HandleSeekStart | ui/src/components/MusicPlayer.jsx:94 | a drag starts; the position is untouched |
| Playback.MusicPlayer.HandleSeekMove | ui/src/components/MusicPlayer.jsx:96-104 | during a drag only the shown progress follows the clamped percent; the position is never written |
| Playback.MusicPlayer.HandleSeekEnd | ui/src/components/MusicPlayer.jsx:106-116 | releasing a drag ends it, shows the clamped percent and, when the duration is known, seeks once to it; without a drag nothing happens |
| Playback.MusicPlayer.HandleSeekLeave | ui/src/components/MusicPlayer.jsx:261 | leaving the bar drops the drag without a seek |
| Playback.MusicPlayer.GetRandomIndex | ui/src/components/MusicPlayer.jsx:119-126 | the current index for at most one track, otherwise an index in range that differs from the current one |
| Playback.MusicPlayer.NextTrack | ui/src/components/MusicPlayer.jsx:128-135 | the cursor moves as `NextChoice` allows (ring successor, or a different index under shuffle); the playlist and the flag are untouched |
| Playback.MusicPlayer.PrevTrack | ui/src/components/MusicPlayer.jsx:137-146 | the cursor moves as `PrevChoice` allows; the playlist and the flag are untouched |
| Playback.MusicPlayer.HandleEnded | ui/src/components/MusicPlayer.jsx:148-161 | repeat one rewinds to 0 and keeps the cursor; repeat all acts as "next"; repeat off advances when i < n-1, and otherwise clears `isPlaying` and keeps the cursor |
| Playback.MusicPlayer.CycleRepeatMode | ui/src/components/MusicPlayer.jsx:163-167 | the mode becomes `CycleRepeat` of the old one |
| Playback.MusicPlayer.ToggleShuffle | ui/src/components/MusicPlayer.jsx:205 | shuffle flips |
| Playback.MusicPlayer.TogglePlay | ui/src/components/MusicPlayer.jsx:216 | `isPlaying` flips; the frame keeps the playlist and the cursor |
| Playback.MusicPlayer.SetVolume | ui/src/components/MusicPlayer.jsx:286-291 | the volume becomes the slider value in [0, 100] |
| Playback.DragAndRelease | ui/src/components/MusicPlayer.jsx:94-116 | press, drag and release end the drag showing the release percent; with a known duration they write the position exactly once, to that percent of the duration, and with an unknown one not at all |
| Playback.EndOfOnlyTrackRepeatAll | ui/src/components/MusicPlayer.jsx:148-161 | one track with repeat all and no shuffle: the cursor and `isPlaying` stay while the element stays paused |
| Downloader.VideoIdOf | ui/src/pages/DownloadPage.jsx:24 | `video_id` when non-empty, else the entry's id, else undefined |
| Downloader.AudioFileUrl | ui/src/pages/DownloadPage.jsx:25 | the backend's `/files/<id>.mp3` URL, with "undefined" for a missing id |
| Downloader.TrackFromReply | ui/src/pages/DownloadPage.jsx:32-38 | the queued track has no id and these fallbacks: title to the video id, uploader "Unknown Artist", duration "0:00", thumbnail "" |
| Downloader.ReplyMessage | ui/src/pages/DownloadPage.jsx:27-41 | "Download complete!" for "started", "File already exists." for "already_downloaded", "Error: " plus the error or "Unknown error" for "error", and no new message for any other status |
| Downloader.StartedUrlMatchesCatalog | ui/src/pages/DownloadPage.jsx:25 | for a non-empty id, the client's URL is the catalog's mp3 audio URL |
| Downloader.ExistingUrlMatchesCatalog | ui/src/pages/DownloadPage.jsx:24-25 | an already-downloaded mp3 entry is queued under its own audio URL |
| Downloader.StartedTrackFallbacks | ui/src/pages/DownloadPage.jsx:32-38 | a "started" reply queues the whole record built from the video id and the fallbacks |
| Downloader.RedownloadKeepsPlaylist | ui/src/pages/DownloadPage.jsx:32-38 | a fresh download ("started") of a video whose catalog entry is still in a stale playlist does not grow the playlist, and starts playing that entry |
| Downloader.RedownloadExistingKeepsPlaylist | ui/src/pages/DownloadPage.jsx:24-38 | the "already_downloaded" reply for a stored video queued from the catalog (as mp3) does not grow the playlist, and starts playing that entry |
| Downloader.DownloadPage.constructor | ui/src/pages/DownloadPage.jsx:8-11 | an empty URL, not downloading, no message, no audio |
| Downloader.DownloadPage.SetUrl | ui/src/pages/DownloadPage.jsx:60 | only the URL changes |
| Downloader.DownloadPage.BeginDownload | ui/src/pages/DownloadPage.jsx:14-17 | a blank or whitespace URL sends nothing and changes nothing; otherwise downloading starts with "Downloading..." and no audio |
| Downloader.DownloadPage.FinishDownload | ui/src/pages/DownloadPage.jsx:19-47 | an accepted reply sets the audio URL and the message and applies `Queue.Add` of the reply's track once; "error" and failed requests set the message; other statuses keep it; `downloading` is false on every path |
| Downloader.DownloadPage.HandleDownload | ui/src/pages/DownloadPage.jsx:13-48 | the whole handler: a blank URL changes nothing, otherwise the outcome-specific message, audio URL and queue update, ending with `downloading` false |
| Catalog.ReplaceReserved | appconfig/app.py:42 | each reserved character `\ / : * ? " < > \|` becomes '_', every other one is kept, and the length is the same |
| Catalog.SanitizeText | appconfig/app.py:41-42 | a falsy text gives ""; otherwise the length is kept, no reserved character remains, and non-reserved characters are unchanged |
| Catalog.SanitizeClean | appconfig/app.py:42 | a text without reserved characters comes back unchanged |
| Catalog.SanitizePlain | appconfig/app.py:42 | letters and spaces come back unchanged |
| Catalog.DefaultTitleIsClean | appconfig/app.py:59 | the default title "Unknown Title" survives sanitising |
| Catalog.DefaultUploaderIsClean | appconfig/app.py:63 | the default uploader "Unknown Uploader" survives sanitising |
| Catalog.SanitizeIdempotent | appconfig/app.py:42 | sanitising twice equals sanitising once |
| Catalog.BuildEntry | appconfig/app.py:54-65 | id is the video id; audio is BACKEND_URL/files/&lt;id&gt;.&lt;format&gt;; a thumbnail URL only when the file exists; the duration is passed through; the text fields are sanitised (each one pinned to its metadata value by `Catalog.BuildEntryFields`); a null title gives ""; a missing upload date gives "" |
| Catalog.BuildEntryFields | appconfig/app.py:59-64 | a present title, uploader or upload date is the sanitised metadata string; a null uploader gives "" |
| Catalog.BuildEntryDefaults | appconfig/app.py:59-63 | a missing title becomes "Unknown Title" and a missing uploader "Unknown Uploader" |
| Catalog.AudioDeterminesId | appconfig/app.py:55-60 | two entries of one format with the same audio URL have the same id |
| Catalog.FirstWithId | appconfig/app.py:138 | none exactly when no entry has the id; otherwise the first entry with it |
| Catalog.Saved | appconfig/app.py:108-111 | the catalog is unchanged or gains exactly the entry at the end, and it is unchanged exactly when the id was already stored |
| Catalog.SavedKeepsIdsUnique | appconfig/app.py:108-111 | saving appends exactly when the id is absent, keeps ids unique and leaves the id stored |
| Catalog.WithoutIdKeepsIdsUnique | appconfig/app.py:180 | removing by id keeps ids unique and leaves no entry with the id |
| Seqs.SubsequenceMembers | appconfig/app.py:180 | every element of a subsequence is an element of the list |
| Catalog.SubsequenceKeepsIdsUnique | appconfig/app.py:180 | any subsequence of a list with unique ids has unique ids |
| Catalog.TaskRecords | appconfig/app.py:67-118 | a job writes between two and four status records |
| Catalog.TaskFollowsLifecycle | appconfig/app.py:67-118 | from "queued" each record advances downloading, processing, finalizing, completed or error; only the last is terminal; it is "completed" exactly when every step succeeded, otherwise "error" with the failing exception's message |
| Catalog.Server.constructor | appconfig/app.py:38 | the stored catalog with an empty tracker |
| Catalog.Server.Download | appconfig/app.py:121-149 | a failed probe answers "error"; a stored id answers "already_downloaded" with its first entry and writes nothing; a new id is set to "queued" and answered "started" |
| Catalog.Server.DownloadTask | appconfig/app.py:67-118 | the tracker receives exactly `TaskRecords` in order and keeps the last one; on success the entry is saved only if its id is absent; on failure the catalog is unchanged |
| Catalog.Server.SaveEntry | appconfig/app.py:108-111 | the catalog becomes `Saved` of the old one: the entry is appended exactly when no stored entry has its id |
| Catalog.Server.Record | appconfig/app.py:69 | one assignment to `download_status` |
| Catalog.Server.GetStatus | appconfig/app.py:151-153 | the stored record, or {"unknown", "No status found"} |
| Catalog.Server.ListDownloads | appconfig/app.py:155-161 | the catalog reversed, newest first, with "success" exactly when it is non-empty |
| Catalog.Server.RemoveDownload | appconfig/app.py:163-186 | an unknown id answers "error" and changes nothing; a known id drops every entry with it, pops its tracker record and answers "removed" |

## Left out

- Rendering, animation, styling, routing and the shell's dark-mode switch: pure presentation.
- The FastAPI routing, the CORS setup and the static mount: framework plumbing.
- The subprocess runs of yt-dlp and ffmpeg: foreign processes. Their outcomes are parameters (`IdProbe`, `TaskRun`).
- The JSON file I/O of `downloads.json`, `Path.exists` and `unlink`: file system access. The catalog is an in-memory list, and the thumbnail's existence is a boolean. A failed read or write of `downloads.json` is not modelled. Reading it raises on an unreadable or malformed file (appconfig/app.py:44-48); in `list_downloads` (:157) and `remove_download` (:165) that error is uncaught and the server answers HTTP 500, and a failed `save_metadata` after the files are unlinked (:173-181) is not modelled either. In `download_task` a failed load or save (:108, :111) writes the "error" record (:116-117) although all three yt-dlp steps ran; the model's `TaskRun` has no such outcome. In `download`, and in `download_task` when the read fails, such a failure looks the same from outside as `IdRaised` / `ProbeRaised`.
- Catalog.Server.RemoveDownload: the deletion of the audio and thumbnail files is not modelled (file system). Neither is the `Path(...).name` recovery of their names.
- Catalog.BuildEntry: the audio URL is written as id + "." + format, and the thumbnail URL as id + ".webp". The source takes the `.name` of paths built from them (appconfig/app.py:55-56, 60-61); the two agree unless the id contains a path separator.
- Catalog.Server.DownloadTask: runs to completion without interleaving. The background thread, and its races with other requests on `download_status`, are concurrency and are not modelled.
- Catalog.Server.Download: the `if existing:` truthiness of a stored entry is taken as "an entry was found", since every stored entry is a non-empty dict.
- Playback.MusicPlayer.GetRandomIndex: the do-while loop of `Math.random` draws is collapsed into one nondeterministic choice of a different index. The loop's termination is only probabilistic, and randomness is an input.
- Playback.MusicPlayer.LoadTrack and Playback.MusicPlayer.SyncPlayback: the asynchronous play promise is an input, `playAccepted`. The `audioRef.current` null check before mount is not modelled, since the element is always present.
- Playback.MusicPlayer.LoadTrack: React's decision of when an effect runs (a changed cursor or audio URL) is left to the caller.
- Playback.MusicPlayer.HandleEnded: the promise of the repeat-one `play()` is not awaited by the source. The model only records whether the element plays.
- Playback: percents and times are reals, not IEEE doubles, and a duration the browser does not know yet is 0 rather than NaN. A seek against an unknown duration would assign NaN, which the element refuses by throwing; the model leaves the position unchanged instead.
- Playback: React's render closures are folded into the current state (the library's remove handler is the one place where the model keeps the click-time snapshot, as `Library.LibraryPage.RemoveTrack`'s `clicked` parameter). A `mousemove` delivered before the re-render that follows `mousedown` still sees `isSeeking` false in the source. The model does not capture that.
- Playback: the browser's `click` that follows a `mouseup` on the bar calls `HandleSeek` after `HandleSeekEnd`. The model does not sequence those two DOM events; `DragAndRelease` covers the mouse events alone.
- The current-time label and `formatDuration`: `formatDuration` lives in a utility file that is not part of this model, and both are display only.
- Text.Lower: only ASCII letters are lower-cased. JavaScript's full Unicode case mapping is not modelled.
- Downloader.TrackFromReply: when neither `video_id` nor `entry.id` is set, the source's title is `undefined`. The model renders it as the empty string, which is how React displays it.
- Logging is left out everywhere (I/O): the `console.error` calls of ui/src/App.jsx:25, ui/src/pages/LibraryPage.jsx:24 and :63 and ui/src/pages/DownloadPage.jsx:43 (in `Downloader.DownloadPage.FinishDownload`), and the `print`s of appconfig/app.py:114 and :118. A thrown error is modelled by its message alone.
- Polling of `/status`: the client never requests it (ui/src/pages/DownloadPage.jsx:19-47), so `Catalog.Server.GetStatus` has no client-side caller in the model.
- Job statuses: the backend writes six, "queued" (appconfig/app.py:143) and "downloading", "processing", "finalizing", "completed" and "error" (appconfig/app.py:69-117). `Catalog.JobStatus` has exactly these, plus the "unknown" that `get_status` answers.
