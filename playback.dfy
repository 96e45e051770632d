/** ui/src/components/MusicPlayer.jsx: the player bar. It moves the shared
    cursor (next, previous, shuffle, repeat, end of track), keeps the
    `<audio>` element in step with the shared `isPlaying` flag, and turns
    mouse positions on the progress bar into seeks. Mouse geometry is
    an input: a handler receives the percent
    `(clientX - rect.left) / rect.width * 100` already computed. */
module Playback {
  import opened Wrappers
  import opened Records
  import Queue
  import App

  datatype RepeatMode = Off | One | All

  /** The repeat button: off -> one -> all -> off. */
  function CycleRepeat(m: RepeatMode): (r: RepeatMode)
    ensures r != m
  {
    match m
    case Off => One
    case One => All
    case All => Off
  }

  /** Three presses of the repeat button bring back the mode, passing
      through the two others. */
  lemma CycleRepeatThrice(m: RepeatMode)
    ensures CycleRepeat(CycleRepeat(CycleRepeat(m))) == m
    ensures CycleRepeat(CycleRepeat(m)) != m
  {
  }

  /** The cursor after "next" without shuffle; an empty playlist keeps it. */
  function NextIndex(i: nat, n: nat): (r: nat)
    ensures n == 0 ==> r == i
    ensures n > 0 ==> r < n
    ensures n > 0 && i + 1 < n ==> r == i + 1
    ensures n > 0 && i + 1 == n ==> r == 0
  {
    if n == 0 then i else (i + 1) % n
  }

  /** The cursor after "previous" without shuffle; an empty playlist keeps it. */
  function PrevIndex(i: nat, n: nat): (r: nat)
    ensures n == 0 ==> r == i
    ensures n > 0 && i == 0 ==> r == n - 1
    ensures n > 0 && i > 0 ==> r == i - 1
  {
    if n == 0 then i else if i == 0 then n - 1 else i - 1
  }

  /** On a valid cursor, "previous" undoes "next" and "next" undoes "previous". */
  lemma NextPrevInverse(i: nat, n: nat)
    requires i < n
    ensures PrevIndex(NextIndex(i, n), n) == i
    ensures NextIndex(PrevIndex(i, n), n) == i
  {
  }

  /** The cursor after `k` presses of "next" without shuffle. */
  function Advance(i: nat, n: nat, k: nat): nat
  {
    if k == 0 then i else NextIndex(Advance(i, n, k - 1), n)
  }

  lemma ModSmall(x: nat, n: nat)
    requires 0 < n && x < 2 * n
    ensures x % n == if x < n then x else x - n
  {
  }

  /** Up to `n` presses of "next" move a valid cursor `k` places round
      the ring. */
  lemma {:induction false} AdvanceModular(i: nat, n: nat, k: nat)
    requires i < n && k <= n
    ensures Advance(i, n, k) == (i + k) % n
  {
    ModSmall(i + k, n);
    if k > 0 {
      AdvanceModular(i, n, k - 1);
      ModSmall(i + k - 1, n);
    }
  }

  /** Starting anywhere, `n` presses of "next" come back to the start. */
  lemma AdvanceFullCircle(i: nat, n: nat)
    requires i < n
    ensures Advance(i, n, n) == i
  {
    AdvanceModular(i, n, n);
    ModSmall(i + n, n);
  }

  /** Within one round, "next" reaches every index of the playlist. */
  lemma AdvanceReaches(i: nat, n: nat, j: nat)
    requires i < n && j < n
    ensures exists k :: 0 <= k < n && Advance(i, n, k) == j
  {
    var k := if j >= i then j - i else j + n - i;
    AdvanceModular(i, n, k);
    ModSmall(i + k, n);
  }

  /** Within one round, "next" never visits an index twice. */
  lemma AdvanceDistinct(i: nat, n: nat, k1: nat, k2: nat)
    requires i < n && k1 < k2 < n
    ensures Advance(i, n, k1) != Advance(i, n, k2)
  {
    AdvanceModular(i, n, k1);
    AdvanceModular(i, n, k2);
    ModSmall(i + k1, n);
    ModSmall(i + k2, n);
  }

  /** What "next" may set the cursor to: the ring successor without
      shuffle; with shuffle, a different index whenever there is one. */
  predicate NextChoice(i: nat, n: nat, shuffle: bool, r: nat)
  {
    if n == 0 then r == i
    else if !shuffle then r == NextIndex(i, n)
    else if n == 1 then r == i
    else r < n && r != i
  }

  /** What "previous" may set the cursor to. */
  predicate PrevChoice(i: nat, n: nat, shuffle: bool, r: nat)
  {
    if n == 0 then r == i
    else if !shuffle then r == PrevIndex(i, n)
    else if n == 1 then r == i
    else r < n && r != i
  }

  /** `Math.max(0, Math.min(100, percent))`. */
  function Clamp(percent: real): (r: real)
    ensures 0.0 <= r <= 100.0
    ensures 0.0 <= percent <= 100.0 ==> r == percent
    ensures percent < 0.0 ==> r == 0.0
    ensures percent > 100.0 ==> r == 100.0
  {
    if percent < 0.0 then 0.0 else if percent > 100.0 then 100.0 else percent
  }

  /** What the player shows when the cursor names no entry. */
  const Placeholder := Track(None, "No Track", Some("-"), Clock("0:00"), Some(""), "", None)

  /** `playlist[currentTrackIndex] || {placeholder}`. */
  function CurrentTrack(playlist: seq<Track>, index: nat): (t: Track)
    ensures index < |playlist| ==> t == playlist[index]
    ensures index >= |playlist| ==> t == Placeholder && t.audio == ""
  {
    if index < |playlist| then playlist[index] else Placeholder
  }

  /** The player's track is the queue's current entry, or the
      placeholder where the queue has none. */
  lemma CurrentTrackIsQueueCurrent(playlist: seq<Track>, index: nat, playing: bool)
    ensures CurrentTrack(playlist, index) == Queue.Current(Queue.QueueState(playlist, index, playing)).GetOr(Placeholder)
  {
  }

  class MusicPlayer {
    const session: App.Session
    var progress: real
    var volume: int
    var isSeeking: bool
    var shuffle: bool
    var repeatMode: RepeatMode
    var firstLoad: bool
    // The <audio> element: its source, position, duration (0 until the
    // browser knows it), volume and whether it is paused.
    var src: string
    var currentTime: real
    var duration: real
    var elementVolume: real
    var paused: bool
    /** How many times a seek has written the element's position. */
    ghost var seeks: nat

    constructor (session: App.Session)
      ensures this.session == session
      ensures progress == 0.0 && volume == 70 && !isSeeking && !shuffle && repeatMode == Off && firstLoad
      ensures src == "" && currentTime == 0.0 && duration == 0.0 && elementVolume == 1.0 && paused
      ensures seeks == 0
    {
      this.session := session;
      progress, volume, isSeeking := 0.0, 70, false;
      shuffle, repeatMode, firstLoad := false, Off, true;
      src, currentTime, duration, elementVolume, paused := "", 0.0, 0.0, 1.0, true;
      seeks := 0;
    }

    /** The effect that runs when the cursor or the current track's audio
        changes. A track without audio (the placeholder) is ignored. The
        first real load only loads and forces `isPlaying` false; every
        later load also tries to play and sets `isPlaying` to whether the
        element accepted. `load()` rewinds the element and forgets the old
        duration until the new source's metadata arrives. */
    method LoadTrack(playAccepted: bool)
      modifies this`src, this`currentTime, this`duration, this`paused, this`firstLoad, session
      ensures session.playlist == old(session.playlist)
      ensures session.currentTrackIndex == old(session.currentTrackIndex)
      ensures var track := CurrentTrack(old(session.playlist), old(session.currentTrackIndex));
        && (track.audio == "" ==>
              session.isPlaying == old(session.isPlaying) && firstLoad == old(firstLoad)
              && src == old(src) && currentTime == old(currentTime) && duration == old(duration)
              && paused == old(paused))
        && (track.audio != "" ==> src == track.audio && currentTime == 0.0 && duration == 0.0 && !firstLoad)
        && (track.audio != "" && old(firstLoad) ==> !session.isPlaying && paused)
        && (track.audio != "" && !old(firstLoad) ==> session.isPlaying == playAccepted && paused == !playAccepted)
    {
      var track := CurrentTrack(session.playlist, session.currentTrackIndex);
      if track.audio == "" {
        return;
      }
      src := track.audio;
      currentTime, duration, paused := 0.0, 0.0, true;
      if firstLoad {
        firstLoad := false;
        session.isPlaying := false;
        return;
      }
      paused := !playAccepted;
      session.isPlaying := playAccepted;
    }

    /** The effect that runs when `isPlaying` or the volume changes: it sets
        the element's volume, then plays or pauses it; a refused play turns
        `isPlaying` back off. */
    method SyncPlayback(playAccepted: bool)
      modifies this`elementVolume, this`paused, session
      ensures elementVolume == volume as real / 100.0
      ensures old(session.isPlaying) ==> session.isPlaying == playAccepted && paused == !playAccepted
      ensures !old(session.isPlaying) ==> !session.isPlaying && paused
      ensures session.playlist == old(session.playlist)
      ensures session.currentTrackIndex == old(session.currentTrackIndex)
    {
      elementVolume := volume as real / 100.0;
      if session.isPlaying {
        paused := !playAccepted;
        if !playAccepted {
          session.isPlaying := false;
        }
      } else {
        paused := true;
      }
    }

    /** `handleTimeUpdate`: progress follows the element's position, except
        while dragging or while the duration is unknown. */
    method HandleTimeUpdate()
      modifies this`progress
      ensures duration != 0.0 && !isSeeking ==> progress == currentTime / duration * 100.0
      ensures !(duration != 0.0 && !isSeeking) ==> progress == old(progress)
    {
      if duration != 0.0 && !isSeeking {
        progress := currentTime / duration * 100.0;
      }
    }

    /** The element's `loadedmetadata`: the browser learns the duration of
        the loaded source. The component has no handler for it; it is the
        only way the duration becomes known. */
    method MetadataLoaded(d: real)
      requires d > 0.0
      modifies this`duration
      ensures duration == d
    {
      duration := d;
    }

    /** `seekToPercent`: the element jumps to that fraction of its
        duration. While the duration is unknown the new position is NaN,
        which the element refuses (the assignment throws), so the
        position stays. */
    method SeekToPercent(percent: real)
      modifies this`currentTime, this`seeks
      ensures duration != 0.0 ==> currentTime == percent / 100.0 * duration && seeks == old(seeks) + 1
      ensures duration == 0.0 ==> currentTime == old(currentTime) && seeks == old(seeks)
    {
      if duration == 0.0 {
        return;
      }
      currentTime := percent / 100.0 * duration;
      seeks := seeks + 1;
    }

    /** `handleSeek` (a click): shows and seeks to the percent, unclamped. */
    method HandleSeek(percent: real)
      modifies this`progress, this`currentTime, this`seeks
      ensures progress == percent
      ensures duration != 0.0 ==> currentTime == percent / 100.0 * duration && seeks == old(seeks) + 1
      ensures duration == 0.0 ==> currentTime == old(currentTime) && seeks == old(seeks)
    {
      progress := percent;
      SeekToPercent(percent);
    }

    /** `handleSeekStart` (mouse down). */
    method HandleSeekStart()
      modifies this`isSeeking
      ensures isSeeking
    {
      isSeeking := true;
    }

    /** `handleSeekMove`: while dragging, only the shown progress follows the
        mouse (clamped); the element's position is left alone. */
    method HandleSeekMove(percent: real)
      modifies this`progress
      ensures old(isSeeking) ==> progress == Clamp(percent)
      ensures !old(isSeeking) ==> progress == old(progress)
    {
      if !isSeeking {
        return;
      }
      progress := Clamp(percent);
    }

    /** `handleSeekEnd` (mouse up): ends the drag and seeks once to the
        clamped percent; without a drag it does nothing. */
    method HandleSeekEnd(percent: real)
      modifies this`isSeeking, this`progress, this`currentTime, this`seeks
      ensures old(isSeeking) ==> !isSeeking && progress == Clamp(percent)
      ensures old(isSeeking) && duration != 0.0 ==>
        currentTime == Clamp(percent) / 100.0 * duration && seeks == old(seeks) + 1
      ensures old(isSeeking) && duration == 0.0 ==>
        currentTime == old(currentTime) && seeks == old(seeks)
      ensures !old(isSeeking) ==>
        !isSeeking && progress == old(progress) && currentTime == old(currentTime) && seeks == old(seeks)
    {
      if !isSeeking {
        return;
      }
      isSeeking := false;
      var p := Clamp(percent);
      progress := p;
      SeekToPercent(p);
    }

    /** The progress bar's `onMouseLeave`: the drag is dropped without a seek. */
    method HandleSeekLeave()
      modifies this`isSeeking
      ensures !isSeeking
    {
      isSeeking := false;
    }

    /** `getRandomIndex`: the cursor itself when there is at most one
        track, otherwise any other index of the playlist. */
    method GetRandomIndex() returns (r: nat)
      ensures |session.playlist| <= 1 ==> r == session.currentTrackIndex
      ensures |session.playlist| > 1 ==> r < |session.playlist| && r != session.currentTrackIndex
    {
      var n := |session.playlist|;
      var current := session.currentTrackIndex;
      if n <= 1 {
        return current;
      }
      var other := if current == 0 then 1 else 0;
      assert other < n && other != current;
      r :| r < n && r != current;
    }

    /** `nextTrack`. */
    method NextTrack()
      modifies session`currentTrackIndex
      ensures NextChoice(old(session.currentTrackIndex), |session.playlist|, shuffle, session.currentTrackIndex)
    {
      var n := |session.playlist|;
      if n == 0 {
        return;
      }
      if shuffle {
        var r := GetRandomIndex();
        session.currentTrackIndex := r;
      } else {
        session.currentTrackIndex := (session.currentTrackIndex + 1) % n;
      }
    }

    /** `prevTrack`. */
    method PrevTrack()
      modifies session`currentTrackIndex
      ensures PrevChoice(old(session.currentTrackIndex), |session.playlist|, shuffle, session.currentTrackIndex)
    {
      var n := |session.playlist|;
      if n == 0 {
        return;
      }
      if shuffle {
        var r := GetRandomIndex();
        session.currentTrackIndex := r;
      } else {
        session.currentTrackIndex := if session.currentTrackIndex == 0 then n - 1 else session.currentTrackIndex - 1;
      }
    }

    /** `handleEnded`. Repeat one restarts the element at 0 (whether it
        plays depends on the element); repeat all behaves as "next"; repeat
        off advances unless the cursor is on the last index or beyond, where
        it stops playback and keeps the cursor. */
    method HandleEnded(playAccepted: bool)
      modifies this`currentTime, this`paused, session
      ensures session.playlist == old(session.playlist)
      ensures repeatMode == One ==>
        currentTime == 0.0 && paused == !playAccepted
        && session.currentTrackIndex == old(session.currentTrackIndex)
        && session.isPlaying == old(session.isPlaying)
      ensures repeatMode == All ==>
        NextChoice(old(session.currentTrackIndex), |session.playlist|, shuffle, session.currentTrackIndex)
        && session.isPlaying == old(session.isPlaying)
      ensures repeatMode == Off && old(session.currentTrackIndex) + 1 < |session.playlist| ==>
        NextChoice(old(session.currentTrackIndex), |session.playlist|, shuffle, session.currentTrackIndex)
        && session.isPlaying == old(session.isPlaying)
      ensures repeatMode == Off && old(session.currentTrackIndex) + 1 >= |session.playlist| ==>
        !session.isPlaying && session.currentTrackIndex == old(session.currentTrackIndex)
      ensures repeatMode != One ==> currentTime == old(currentTime) && paused == old(paused)
    {
      if repeatMode == One {
        currentTime := 0.0;
        paused := !playAccepted;
      } else if repeatMode == All {
        NextTrack();
      } else {
        if (session.currentTrackIndex as int) < |session.playlist| - 1 {
          NextTrack();
        } else {
          session.isPlaying := false;
        }
      }
    }

    /** `cycleRepeatMode`. */
    method CycleRepeatMode()
      modifies this`repeatMode
      ensures repeatMode == CycleRepeat(old(repeatMode))
    {
      repeatMode := match repeatMode
        case Off => One
        case One => All
        case All => Off;
    }

    /** The shuffle button. */
    method ToggleShuffle()
      modifies this`shuffle
      ensures shuffle == !old(shuffle)
    {
      shuffle := !shuffle;
    }

    /** The play/pause button: flips the shared flag. */
    method TogglePlay()
      modifies session`isPlaying
      ensures session.isPlaying == !old(session.isPlaying)
    {
      session.isPlaying := !session.isPlaying;
    }

    /** The volume slider, a range input from 0 to 100. */
    method SetVolume(v: int)
      requires 0 <= v <= 100
      modifies this`volume
      ensures volume == v
    {
      volume := v;
    }
  }

  /** Pressing on the bar, dragging across it and releasing at `to` moves
      the shown progress, and writes the element's position at most once:
      on release, to `to` percent of the duration when it is known, and
      not at all while it is unknown. */
  method DragAndRelease(player: MusicPlayer, from: real, to: real)
    requires 0.0 <= to <= 100.0
    modifies player`isSeeking, player`progress, player`currentTime, player`seeks
    ensures player.duration != 0.0 ==>
      player.currentTime == to / 100.0 * player.duration && player.seeks == old(player.seeks) + 1
    ensures player.duration == 0.0 ==>
      player.currentTime == old(player.currentTime) && player.seeks == old(player.seeks)
    ensures player.progress == to && !player.isSeeking
  {
    player.HandleSeekStart();
    player.HandleSeekMove(from);
    assert player.seeks == old(player.seeks) && player.currentTime == old(player.currentTime);
    player.HandleSeekMove(to);
    player.HandleSeekEnd(to);
  }

  /** With a single track, repeat all and no shuffle, the end of the track
      leaves the cursor and the playing flag as they were, so the
      track-load effect, which only reacts to a changed cursor or audio URL,
      does not run: the ended element stays paused while `isPlaying` is
      still true. */
  method EndOfOnlyTrackRepeatAll(player: MusicPlayer, playAccepted: bool)
    requires |player.session.playlist| == 1 && player.session.currentTrackIndex == 0
    requires player.repeatMode == All && !player.shuffle
    requires player.session.isPlaying && player.paused
    modifies player`currentTime, player`paused, player.session
    ensures player.session.currentTrackIndex == 0 && player.session.playlist == old(player.session.playlist)
    ensures player.session.isPlaying && player.paused
  {
    player.HandleEnded(playAccepted);
  }
}
