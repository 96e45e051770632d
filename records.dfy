/** The JSON records that travel between the backend and the client: the
    track (a catalog entry on the backend, a playlist entry on the client)
    and the bodies of the four endpoint replies. */
module Records {
  import opened Wrappers
  import Seqs

  /** A duration as JSON carries it: yt-dlp's number of seconds, a display
      string such as "0:00", or null / absent. */
  datatype Duration = NoDuration | Seconds(secs: int) | Clock(text: string)
  {
    /** JavaScript truthiness: null, 0 and "" are falsy. */
    predicate Truthy()
    {
      match this
      case NoDuration => false
      case Seconds(n) => n != 0
      case Clock(t) => t != ""
    }
  }

  /** A track record. A field that a record lacks is `None`: the tracks
      the download page builds carry neither `id` nor `upload_date`. */
  datatype Track = Track(
    id: Option<string>,
    title: string,
    uploader: Option<string>,
    duration: Duration,
    thumbnail: Option<string>,
    audio: string,
    uploadDate: Option<string>)

  /** JavaScript truthiness of an optional string. */
  predicate Truthy(s: Option<string>)
  {
    s.Some? && s.value != ""
  }

  /** JavaScript `a || b` on optional strings: one of the two operands, and
      a truthy one whenever either operand is truthy. */
  function Or(a: Option<string>, b: Option<string>): (r: Option<string>)
    ensures r == a || r == b
    ensures Truthy(r) <==> Truthy(a) || Truthy(b)
    ensures Truthy(a) ==> r == a
    ensures !Truthy(a) ==> r == b
  {
    if Truthy(a) then a else b
  }

  /** A chain `a || b || c` picks the first truthy operand however it is
      grouped. */
  lemma OrAssociative(a: Option<string>, b: Option<string>, c: Option<string>)
    ensures Or(Or(a, b), c) == Or(a, Or(b, c))
  {
  }

  /** A falsy left operand is transparent, and an operand or-ed with
      itself is unchanged. */
  lemma OrFalsyLeft(a: Option<string>, b: Option<string>)
    requires !Truthy(a)
    ensures Or(a, b) == b
    ensures Or(b, b) == b
  {
  }

  /** JavaScript `a || fallback` with a string fallback: the string of
      `a` when it is truthy, and the fallback otherwise, so the result is
      empty only when both are. */
  function OrElse(a: Option<string>, fallback: string): (r: string)
    ensures (a.Some? && r == a.value) || r == fallback
    ensures r != "" <==> Truthy(a) || fallback != ""
    ensures Truthy(a) ==> r == a.value
    ensures !Truthy(a) ==> r == fallback
  {
    if Truthy(a) then a.value else fallback
  }

  /** `OrElse` is `Or` with a present fallback. */
  lemma OrElseIsOr(a: Option<string>, fallback: string)
    ensures Or(a, Some(fallback)) == Some(OrElse(a, fallback))
  {
  }

  /** The records whose `id` is not `id`, in their original order: the
      client's `filter((t) => t.id !== id)` and the backend's
      `[m for m in all_meta if m["id"] != id]`. A record without an id is
      always kept. */
  function WithoutId(tracks: seq<Track>, id: string): (r: seq<Track>)
    ensures Seqs.IsSubsequence(r, tracks)
    ensures forall t :: multiset(r)[t] == if t.id == Some(id) then 0 else multiset(tracks)[t]
    ensures forall t :: t in r <==> t in tracks && t.id != Some(id)
  {
    Seqs.FilterSelects(tracks, (t: Track) => t.id != Some(id));
    Seqs.Filter(tracks, (t: Track) => t.id != Some(id))
  }

  /** Body of `GET /list`. */
  datatype ListReply = ListReply(status: string, downloads: seq<Track>)

  /** Body of `GET /download`; absent fields are `None`. */
  datatype DownloadReply = DownloadReply(
    status: string,
    videoId: Option<string>,
    entry: Option<Track>,
    error: Option<string>)

  /** Body of `GET /remove`. */
  datatype RemoveReply = RemoveReply(status: string, id: Option<string>, message: Option<string>)

  /** What an axios call delivers to the client: the reply body, or a
      thrown error with its message. */
  datatype Fetched<T> = Answered(body: T) | NetworkError(message: string)
}
