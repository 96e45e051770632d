/** The backend's catalog bookkeeping (appconfig/app.py): the text
    sanitiser, the catalog record built for a finished download, the
    in-memory `download_status` tracker and the metadata list that
    `downloads.json` holds. yt-dlp runs, file reads and writes and the
    background thread are replaced by parameters that say how each step
    turned out. */
module Catalog {
  import opened Wrappers
  import opened Records
  import Seqs

  const BackendUrl: string := "http://localhost:8000"

  /** The `format` query parameter; FastAPI rejects any other value. */
  datatype Format = Mp3 | M4a | Opus
  {
    function Ext(): string
    {
      match this
      case Mp3 => "mp3"
      case M4a => "m4a"
      case Opus => "opus"
    }
  }

  // ---------------- sanitize_text ----------------

  /** The characters `sanitize_text` replaces: \ / : * ? " < > | */
  predicate IsReserved(c: char)
  {
    c == '\\' || c == '/' || c == ':' || c == '*' || c == '?' || c == '"' || c == '<' || c == '>' || c == '|'
  }

  /** `re.sub(r'[\\/:*?"<>|]', "_", s)`. */
  function ReplaceReserved(s: string): (r: string)
    ensures |r| == |s|
    ensures forall i :: 0 <= i < |s| ==> r[i] == if IsReserved(s[i]) then '_' else s[i]
  {
    if s == [] then [] else [if IsReserved(s[0]) then '_' else s[0]] + ReplaceReserved(s[1..])
  }

  /** `sanitize_text(text)`: a null (or empty) text gives "", any other
      text keeps its length, loses every reserved character to '_' and
      keeps every other character where it was. */
  function SanitizeText(text: Option<string>): (r: string)
    ensures forall i :: 0 <= i < |r| ==> !IsReserved(r[i])
    ensures text.None? ==> r == ""
    ensures text.Some? ==> |r| == |text.value|
    ensures text.Some? ==> forall i :: 0 <= i < |r| ==> (r[i] == '_' || r[i] == text.value[i])
    ensures text.Some? ==> forall i :: 0 <= i < |r| && !IsReserved(text.value[i]) ==> r[i] == text.value[i]
  {
    if text.None? || text.value == "" then "" else ReplaceReserved(text.value)
  }

  /** A text without reserved characters is left as it is. */
  lemma SanitizeClean(s: string)
    requires forall i :: 0 <= i < |s| ==> !IsReserved(s[i])
    ensures SanitizeText(Some(s)) == s
  {
    assert forall i :: 0 <= i < |s| ==> SanitizeText(Some(s))[i] == s[i];
  }

  /** Letters and spaces are never reserved. */
  predicate IsPlain(c: char)
  {
    'A' <= c <= 'Z' || 'a' <= c <= 'z' || c == ' '
  }

  /** A text of letters and spaces is left as it is. */
  lemma SanitizePlain(s: string)
    requires forall i :: 0 <= i < |s| ==> IsPlain(s[i])
    ensures SanitizeText(Some(s)) == s
  {
    SanitizeClean(s);
  }

  /** The default title of `build_entry` survives sanitising unchanged. */
  lemma DefaultTitleIsClean()
    ensures SanitizeText(Some("Unknown Title")) == "Unknown Title"
  {
    var title := "Unknown Title";
    assert forall i :: 0 <= i < |title| ==> IsPlain(title[i]);
    SanitizePlain(title);
  }

  /** The default uploader of `build_entry` survives sanitising unchanged. */
  lemma DefaultUploaderIsClean()
    ensures SanitizeText(Some("Unknown Uploader")) == "Unknown Uploader"
  {
    var uploader := "Unknown Uploader";
    assert forall i :: 0 <= i < |uploader| ==> IsPlain(uploader[i]);
    SanitizePlain(uploader);
  }

  /** Sanitising a sanitised text changes nothing. */
  lemma SanitizeIdempotent(text: Option<string>)
    ensures SanitizeText(Some(SanitizeText(text))) == SanitizeText(text)
  {
    var once := SanitizeText(text);
    assert forall i :: 0 <= i < |once| ==> SanitizeText(Some(once))[i] == once[i];
  }

  // ---------------- build_entry ----------------

  /** A metadata field as yt-dlp's JSON gives it: missing, null or a string. */
  datatype Field = Absent | Null | Str(s: string)

  /** `metadata.get(key, default)`. */
  function Get(f: Field, default: string): Option<string>
  {
    match f
    case Absent => Some(default)
    case Null => None
    case Str(s) => Some(s)
  }

  /** The part of yt-dlp's `--print-json` output that the catalog keeps. */
  datatype Metadata = Metadata(title: Field, uploader: Field, uploadDate: Field, duration: Duration)

  /** `build_entry(metadata, video_id, format)`; `thumbExists` stands for
      `thumb_file.exists()`. */
  function BuildEntry(meta: Metadata, videoId: string, format: Format, thumbExists: bool): (e: Track)
    ensures e.id == Some(videoId)
    ensures e.audio == BackendUrl + "/files/" + videoId + "." + format.Ext()
    ensures e.thumbnail == if thumbExists then Some(BackendUrl + "/files/" + videoId + ".webp") else None
    ensures e.duration == meta.duration
    ensures e.uploader.Some? && e.uploadDate.Some?
    ensures forall i :: 0 <= i < |e.title| ==> !IsReserved(e.title[i])
    ensures forall i :: 0 <= i < |e.uploader.value| ==> !IsReserved(e.uploader.value[i])
    ensures meta.title.Null? ==> e.title == ""
    ensures meta.uploadDate.Absent? || meta.uploadDate.Null? ==> e.uploadDate == Some("")
  {
    Track(
      id := Some(videoId),
      title := SanitizeText(Get(meta.title, "Unknown Title")),
      uploader := Some(SanitizeText(Get(meta.uploader, "Unknown Uploader"))),
      duration := meta.duration,
      thumbnail := if thumbExists then Some(BackendUrl + "/files/" + videoId + ".webp") else None,
      audio := BackendUrl + "/files/" + videoId + "." + format.Ext(),
      uploadDate := Some(SanitizeText(Get(meta.uploadDate, ""))))
  }

  /** Each text field of the entry is the sanitised value yt-dlp reported
      for it; a null uploader gives "". */
  lemma BuildEntryFields(meta: Metadata, videoId: string, format: Format, thumbExists: bool)
    ensures var e := BuildEntry(meta, videoId, format, thumbExists);
      && (meta.title.Str? ==> e.title == SanitizeText(Some(meta.title.s)))
      && (meta.uploader.Str? ==> e.uploader == Some(SanitizeText(Some(meta.uploader.s))))
      && (meta.uploadDate.Str? ==> e.uploadDate == Some(SanitizeText(Some(meta.uploadDate.s))))
      && (meta.uploader.Null? ==> e.uploader == Some(""))
  {
  }

  /** A title or uploader that yt-dlp does not report gets the default. */
  lemma BuildEntryDefaults(meta: Metadata, videoId: string, format: Format, thumbExists: bool)
    ensures meta.title.Absent? ==> BuildEntry(meta, videoId, format, thumbExists).title == "Unknown Title"
    ensures meta.uploader.Absent? ==> BuildEntry(meta, videoId, format, thumbExists).uploader == Some("Unknown Uploader")
  {
    DefaultTitleIsClean();
    DefaultUploaderIsClean();
  }

  /** Two entries of one format with the same audio URL have the same id:
      the client's dedup on `audio` agrees with the catalog's key `id`. */
  lemma AudioDeterminesId(m1: Metadata, id1: string, m2: Metadata, id2: string, format: Format, t1: bool, t2: bool)
    requires BuildEntry(m1, id1, format, t1).audio == BuildEntry(m2, id2, format, t2).audio
    ensures id1 == id2
  {
    var prefix := BackendUrl + "/files/";
    var suffix := "." + format.Ext();
    var a := BuildEntry(m1, id1, format, t1).audio;
    assert a == prefix + id1 + suffix;
    assert a == prefix + id2 + suffix;
    assert |id1| == |id2|;
    assert id1 == a[|prefix|..|prefix| + |id1|];
    assert id2 == a[|prefix|..|prefix| + |id2|];
  }

  // ---------------- the metadata list ----------------

  /** Some stored entry has this id (`any(m["id"] == id for m in all_meta)`). */
  predicate HasId(all: seq<Track>, id: string)
  {
    exists i :: 0 <= i < |all| && all[i].id == Some(id)
  }

  /** No two stored entries share an id. */
  predicate IdsUnique(all: seq<Track>)
  {
    forall i, j :: 0 <= i < j < |all| ==> all[i].id != all[j].id
  }

  /** `next((m for m in all_meta if m["id"] == id), None)`: the first entry
      with that id, or `None` when there is none. */
  function FirstWithId(all: seq<Track>, id: string): (r: Option<Track>)
    ensures r.None? <==> !HasId(all, id)
    ensures r.Some? ==> exists k :: 0 <= k < |all| && all[k] == r.value && r.value.id == Some(id)
                                 && forall j :: 0 <= j < k ==> all[j].id != Some(id)
  {
    if all == [] then None
    else if all[0].id == Some(id) then Some(all[0])
    else
      var r := FirstWithId(all[1..], id);
      assert r.Some? ==> exists k :: 0 <= k < |all[1..]| && all[1..][k] == r.value && r.value.id == Some(id)
                                  && forall j :: 0 <= j < k ==> all[1..][j].id != Some(id);
      assert HasId(all[1..], id) ==> HasId(all, id) by {
        if HasId(all[1..], id) {
          var i :| 0 <= i < |all[1..]| && all[1..][i].id == Some(id);
          assert all[i + 1].id == Some(id);
        }
      }
      assert HasId(all, id) ==> HasId(all[1..], id) by {
        if HasId(all, id) {
          var i :| 0 <= i < |all| && all[i].id == Some(id);
          assert i != 0 && all[1..][i - 1].id == Some(id);
        }
      }
      if r.Some? then
        assert exists k :: 0 <= k < |all| && all[k] == r.value && r.value.id == Some(id)
                        && forall j :: 0 <= j < k ==> all[j].id != Some(id) by {
          var k :| 0 <= k < |all[1..]| && all[1..][k] == r.value && r.value.id == Some(id)
                 && forall j :: 0 <= j < k ==> all[1..][j].id != Some(id);
          assert all[k + 1] == r.value;
          assert forall j :: 0 <= j < k + 1 ==> all[j].id != Some(id) by {
            forall j | 0 <= j < k + 1 ensures all[j].id != Some(id) {
              if j > 0 { assert all[j] == all[1..][j - 1]; }
            }
          }
        }
        r
      else r
  }

  /** The save step of `download_task`: append `entry` only when no stored
      entry already has `videoId`. */
  function Saved(all: seq<Track>, videoId: string, entry: Track): (r: seq<Track>)
    ensures r == all || r == all + [entry]
    ensures |r| == |all| <==> HasId(all, videoId)
  {
    if HasId(all, videoId) then all else all + [entry]
  }

  /** Saving an entry under its own id keeps ids unique, and afterwards the
      id is stored; a stored id leaves the list as it was. */
  lemma SavedKeepsIdsUnique(all: seq<Track>, videoId: string, entry: Track)
    requires IdsUnique(all) && entry.id == Some(videoId)
    ensures IdsUnique(Saved(all, videoId, entry))
    ensures HasId(Saved(all, videoId, entry), videoId)
    ensures HasId(all, videoId) ==> Saved(all, videoId, entry) == all
    ensures !HasId(all, videoId) ==> Saved(all, videoId, entry) == all + [entry]
  {
    var r := Saved(all, videoId, entry);
    if !HasId(all, videoId) {
      assert r[|all|].id == Some(videoId);
    }
  }

  /** Removing by id keeps ids unique and leaves no entry with that id. */
  lemma WithoutIdKeepsIdsUnique(all: seq<Track>, id: string)
    requires IdsUnique(all)
    ensures IdsUnique(WithoutId(all, id))
    ensures !HasId(WithoutId(all, id), id)
  {
    var r := WithoutId(all, id);
    SubsequenceKeepsIdsUnique(r, all);
  }

  /** A subsequence of a list with unique ids has unique ids. */
  lemma {:induction false} SubsequenceKeepsIdsUnique(sub: seq<Track>, s: seq<Track>)
    requires Seqs.IsSubsequence(sub, s) && IdsUnique(s)
    ensures IdsUnique(sub)
    decreases |s|
  {
    if sub != [] {
      if sub[0] == s[0] {
        SubsequenceKeepsIdsUnique(sub[1..], s[1..]);
        Seqs.SubsequenceMembers(sub[1..], s[1..]);
        forall i, j | 0 <= i < j < |sub| ensures sub[i].id != sub[j].id {
          if i == 0 {
            assert sub[j] in sub[1..];
            assert sub[j] in s[1..];
            var k :| 0 <= k < |s[1..]| && s[1..][k] == sub[j];
            assert s[k + 1] == sub[j];
          } else {
            assert sub[i] == sub[1..][i - 1] && sub[j] == sub[1..][j - 1];
          }
        }
      } else {
        SubsequenceKeepsIdsUnique(sub, s[1..]);
      }
    }
  }

  // ---------------- download_status ----------------

  /** Job states written to `download_status`, and "unknown", which
      `get_status` answers for an id it has never stored. */
  datatype JobStatus = Queued | Downloading | Processing | Finalizing | Completed | Error | Unknown
  {
    function Name(): string
    {
      match this
      case Queued => "queued"
      case Downloading => "downloading"
      case Processing => "processing"
      case Finalizing => "finalizing"
      case Completed => "completed"
      case Error => "error"
      case Unknown => "unknown"
    }

    predicate IsTerminal()
    {
      this == Completed || this == Error
    }
  }

  /** One value of `download_status`: {"status": ..., "message": ...}. */
  datatype JobRecord = JobRecord(status: JobStatus, message: string)

  const QueuedRecord := JobRecord(Queued, "Waiting to start...")
  const DownloadingRecord := JobRecord(Downloading, "Fetching audio...")
  const ProcessingRecord := JobRecord(Processing, "Converting thumbnail...")
  const FinalizingRecord := JobRecord(Finalizing, "Saving metadata...")
  const CompletedRecord := JobRecord(Completed, "Download complete!")
  const NoStatus := JobRecord(Unknown, "No status found")

  /** The transitions a job may take: queued -> downloading -> processing
      -> finalizing -> completed, with a failure allowed after each step. */
  predicate Advances(a: JobStatus, b: JobStatus)
  {
    match a
    case Queued => b == Downloading
    case Downloading => b == Processing || b == Error
    case Processing => b == Finalizing || b == Error
    case Finalizing => b == Completed || b == Error
    case _ => false
  }

  /** How one external step of the job ended. */
  datatype Step = Ran | Raised(message: string)

  /** How the metadata probe ended: its parsed JSON or an exception. */
  datatype MetaProbe = Printed(meta: Metadata) | ProbeRaised(message: string)

  /** Everything `download_task` learns from the outside world: the audio
      download, the thumbnail download, the metadata probe, and whether the
      thumbnail file exists afterwards. */
  datatype TaskRun = TaskRun(audio: Step, thumbnail: Step, probe: MetaProbe, thumbExists: bool)
  {
    predicate Succeeds()
    {
      audio.Ran? && thumbnail.Ran? && probe.Printed?
    }
  }

  /** The records `download_task` writes for its id, in order. */
  function TaskRecords(run: TaskRun): (r: seq<JobRecord>)
    ensures 2 <= |r| <= 4
  {
    if run.audio.Raised? then [DownloadingRecord, JobRecord(Error, run.audio.message)]
    else if run.thumbnail.Raised? then [DownloadingRecord, ProcessingRecord, JobRecord(Error, run.thumbnail.message)]
    else if run.probe.ProbeRaised? then [DownloadingRecord, ProcessingRecord, FinalizingRecord, JobRecord(Error, run.probe.message)]
    else [DownloadingRecord, ProcessingRecord, FinalizingRecord, CompletedRecord]
  }

  /** The statuses of a job that starts queued and then runs
      `download_task` follow the lifecycle step by step and end terminal:
      completed exactly when every step succeeded, otherwise error with
      the message of the exception that stopped it. */
  lemma TaskFollowsLifecycle(run: TaskRun)
    ensures var trail := [Queued] + Statuses(TaskRecords(run));
      forall i :: 0 < i < |trail| ==> Advances(trail[i - 1], trail[i])
    ensures var last := TaskRecords(run)[|TaskRecords(run)| - 1];
      && last.status.IsTerminal()
      && (last.status == Completed <==> run.Succeeds())
      && (run.audio.Raised? ==> last == JobRecord(Error, run.audio.message))
      && (run.audio.Ran? && run.thumbnail.Raised? ==> last == JobRecord(Error, run.thumbnail.message))
      && (run.audio.Ran? && run.thumbnail.Ran? && run.probe.ProbeRaised? ==> last == JobRecord(Error, run.probe.message))
    ensures forall i :: 0 <= i < |TaskRecords(run)| - 1 ==> !TaskRecords(run)[i].status.IsTerminal()
  {
  }

  /** The status of each record, in order. */
  function Statuses(records: seq<JobRecord>): (r: seq<JobStatus>)
    ensures |r| == |records|
    ensures forall i :: 0 <= i < |records| ==> r[i] == records[i].status
  {
    seq(|records|, i requires 0 <= i < |records| => records[i].status)
  }

  /** One assignment to or removal from `download_status`, as the ghost
      log of the server records it. */
  datatype StatusWrite = Set(id: string, record: JobRecord) | Pop(id: string)

  /** The log entries of assigning `records` to `id`, one after the other. */
  function SetsFor(id: string, records: seq<JobRecord>): (r: seq<StatusWrite>)
    ensures |r| == |records|
    ensures forall i :: 0 <= i < |records| ==> r[i] == Set(id, records[i])
  {
    seq(|records|, i requires 0 <= i < |records| => Set(id, records[i]))
  }

  /** Two, three or four logged assignments, one after the other, are the
      assignments of the record list. */
  lemma LogPair(log: seq<StatusWrite>, id: string, a: JobRecord, b: JobRecord)
    ensures log + [Set(id, a)] + [Set(id, b)] == log + SetsFor(id, [a, b])
  {
    assert SetsFor(id, [a, b]) == [Set(id, a), Set(id, b)];
  }

  lemma LogTriple(log: seq<StatusWrite>, id: string, a: JobRecord, b: JobRecord, c: JobRecord)
    ensures log + [Set(id, a)] + [Set(id, b)] + [Set(id, c)] == log + SetsFor(id, [a, b, c])
  {
    assert SetsFor(id, [a, b, c]) == [Set(id, a), Set(id, b), Set(id, c)];
  }

  lemma LogQuad(log: seq<StatusWrite>, id: string, a: JobRecord, b: JobRecord, c: JobRecord, d: JobRecord)
    ensures log + [Set(id, a)] + [Set(id, b)] + [Set(id, c)] + [Set(id, d)] == log + SetsFor(id, [a, b, c, d])
  {
    assert SetsFor(id, [a, b, c, d]) == [Set(id, a), Set(id, b), Set(id, c), Set(id, d)];
  }

  /** A second assignment to a key replaces the first. */
  lemma Overwrite(m: map<string, JobRecord>, k: string, a: JobRecord, b: JobRecord)
    ensures m[k := a][k := b] == m[k := b]
  {
  }

  /** The prober of `download`: the video id yt-dlp reports, or the
      exception raised while obtaining it. */
  datatype IdProbe = IdPrinted(videoId: string) | IdRaised(message: string)

  // ---------------- the server ----------------

  /** The backend process's state: `downloads.json` as a list of entries,
      and the in-memory tracker `download_status`. */
  class Server {
    var metadata: seq<Track>
    var downloadStatus: map<string, JobRecord>
    /** Every write to `download_status`, in program order. */
    ghost var writes: seq<StatusWrite>

    /** Process start: the stored catalog, an empty tracker. */
    constructor (stored: seq<Track>)
      ensures metadata == stored && downloadStatus == map[] && writes == []
    {
      metadata := stored;
      downloadStatus := map[];
      writes := [];
    }

    /** `download(url, format)`. A known id answers "already_downloaded"
        with the stored entry and touches nothing; a new id is queued and
        answered "started" (the background task is `DownloadTask`); a
        failed probe answers "error". */
    method Download(probe: IdProbe) returns (reply: DownloadReply)
      modifies this
      ensures metadata == old(metadata)
      ensures probe.IdRaised? ==>
        reply == DownloadReply("error", None, None, Some(probe.message))
        && downloadStatus == old(downloadStatus) && writes == old(writes)
      ensures probe.IdPrinted? && HasId(metadata, probe.videoId) ==>
        reply == DownloadReply("already_downloaded", None, FirstWithId(metadata, probe.videoId), None)
        && reply.entry.Some? && reply.entry.value.id == Some(probe.videoId)
        && downloadStatus == old(downloadStatus) && writes == old(writes)
      ensures probe.IdPrinted? && !HasId(metadata, probe.videoId) ==>
        reply == DownloadReply("started", Some(probe.videoId), None, None)
        && downloadStatus == old(downloadStatus)[probe.videoId := QueuedRecord]
        && writes == old(writes) + [Set(probe.videoId, QueuedRecord)]
    {
      if probe.IdRaised? {
        return DownloadReply("error", None, None, Some(probe.message));
      }
      var videoId := probe.videoId;
      var existing := FirstWithId(metadata, videoId);
      if existing.Some? {
        return DownloadReply("already_downloaded", None, existing, None);
      }
      downloadStatus := downloadStatus[videoId := QueuedRecord];
      writes := writes + [Set(videoId, QueuedRecord)];
      reply := DownloadReply("started", Some(videoId), None, None);
    }

    /** `download_task(url, video_id, format)`, run to its end without
        interleaving. */
    method DownloadTask(videoId: string, format: Format, run: TaskRun)
      modifies this
      ensures writes == old(writes) + SetsFor(videoId, TaskRecords(run))
      ensures downloadStatus == old(downloadStatus)[videoId := TaskRecords(run)[|TaskRecords(run)| - 1]]
      ensures run.Succeeds() ==>
        metadata == Saved(old(metadata), videoId, BuildEntry(run.probe.meta, videoId, format, run.thumbExists))
      ensures !run.Succeeds() ==> metadata == old(metadata)
    {
      ghost var before := downloadStatus;
      ghost var log := writes;
      Record(videoId, DownloadingRecord);
      if run.audio.Raised? {
        Record(videoId, JobRecord(Error, run.audio.message));
        Overwrite(before, videoId, DownloadingRecord, JobRecord(Error, run.audio.message));
        LogPair(log, videoId, DownloadingRecord, JobRecord(Error, run.audio.message));
        return;
      }
      Record(videoId, ProcessingRecord);
      Overwrite(before, videoId, DownloadingRecord, ProcessingRecord);
      if run.thumbnail.Raised? {
        Record(videoId, JobRecord(Error, run.thumbnail.message));
        Overwrite(before, videoId, ProcessingRecord, JobRecord(Error, run.thumbnail.message));
        LogTriple(log, videoId, DownloadingRecord, ProcessingRecord, JobRecord(Error, run.thumbnail.message));
        return;
      }
      Record(videoId, FinalizingRecord);
      Overwrite(before, videoId, ProcessingRecord, FinalizingRecord);
      if run.probe.ProbeRaised? {
        Record(videoId, JobRecord(Error, run.probe.message));
        Overwrite(before, videoId, FinalizingRecord, JobRecord(Error, run.probe.message));
        LogQuad(log, videoId, DownloadingRecord, ProcessingRecord, FinalizingRecord, JobRecord(Error, run.probe.message));
        return;
      }
      SaveEntry(videoId, BuildEntry(run.probe.meta, videoId, format, run.thumbExists));
      Record(videoId, CompletedRecord);
      Overwrite(before, videoId, FinalizingRecord, CompletedRecord);
      LogQuad(log, videoId, DownloadingRecord, ProcessingRecord, FinalizingRecord, CompletedRecord);
    }

    /** The save step: append the entry unless its id is already stored. */
    method SaveEntry(videoId: string, entry: Track)
      modifies this`metadata
      ensures metadata == Saved(old(metadata), videoId, entry)
    {
      if !HasId(metadata, videoId) {
        metadata := metadata + [entry];
      }
    }

    /** One assignment `download_status[video_id] = record`. */
    method Record(videoId: string, record: JobRecord)
      modifies this`downloadStatus, this`writes
      ensures downloadStatus == old(downloadStatus)[videoId := record]
      ensures writes == old(writes) + [Set(videoId, record)]
    {
      downloadStatus := downloadStatus[videoId := record];
      writes := writes + [Set(videoId, record)];
    }

    /** `get_status(video_id)`: the stored record, or "unknown". */
    method GetStatus(videoId: string) returns (r: JobRecord)
      ensures videoId in downloadStatus ==> r == downloadStatus[videoId]
      ensures videoId !in downloadStatus ==> r == JobRecord(Unknown, "No status found")
    {
      r := if videoId in downloadStatus then downloadStatus[videoId] else NoStatus;
    }

    /** `list_downloads()`: the catalog newest first, "success" exactly
        when it is non-empty. */
    method ListDownloads() returns (reply: ListReply)
      ensures reply.status == (if |metadata| > 0 then "success" else "empty")
      ensures |reply.downloads| == |metadata|
      ensures forall i :: 0 <= i < |metadata| ==> reply.downloads[i] == metadata[|metadata| - 1 - i]
    {
      reply := ListReply(if |metadata| > 0 then "success" else "empty", Seqs.Reverse(metadata));
    }

    /** `remove_download(id)`: an unknown id answers "error" and changes
        nothing; a known one drops every entry with that id and the id's
        tracker record. */
    method RemoveDownload(id: string) returns (reply: RemoveReply)
      modifies this
      ensures !HasId(old(metadata), id) ==>
        reply == RemoveReply("error", None, Some("No entry found with id " + id))
        && metadata == old(metadata) && downloadStatus == old(downloadStatus) && writes == old(writes)
      ensures HasId(old(metadata), id) ==>
        reply == RemoveReply("removed", Some(id), None)
        && metadata == WithoutId(old(metadata), id)
        && downloadStatus == old(downloadStatus) - {id}
        && writes == old(writes) + [Pop(id)]
    {
      var entry := FirstWithId(metadata, id);
      if entry.None? {
        return RemoveReply("error", None, Some("No entry found with id " + id));
      }
      metadata := WithoutId(metadata, id);
      downloadStatus := downloadStatus - {id};
      writes := writes + [Pop(id)];
      reply := RemoveReply("removed", Some(id), None);
    }
  }
}
