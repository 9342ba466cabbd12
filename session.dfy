/** The playback session of the player: the child process playing a track, the
    pause bookkeeping, where playback was started from, and the playlist with
    its shuffle snapshot. Calls into the operating system and external tools
    are replaced by their outcomes, passed in by the caller. */
module Session {
  import opened Wrappers
  import opened Text
  import opened Tracks
  import Timing
  import Shuffling

  /** A child process the player started. Whether it is still running is only
      known through `poll()`, whose answer is an input of each operation. */
  datatype Proc = Proc(pid: int)

  /** The audio player found on the search path at start-up. */
  datatype PlayerKind = Mpv | Ffplay

  /** Where playback was started from: the track list or the playlist. */
  datatype PlaySource = FromTracks | FromPlaylist

  datatype Sig = SigStop | SigCont | SigTerm | SigKill

  /** What the session asks of the operating system. */
  datatype OsAction = Spawn(target: string) | Signal(proc: Proc, sig: Sig)

  /** The outcomes of the external calls one `_start_track` may make. */
  datatype Launch = Launch(
    oldAlive: bool,            // the process being replaced has not exited yet
    oldExitsOnTerm: bool,      // it exits within 0.8 s of SIGTERM
    resolved: Result<string>,  // the stream URL yt-dlp resolves for a remote track
    spawned: Result<Proc>,     // the new player process, or the exception of Popen
    duration: Option<int>)     // the length ffprobe reports for a local file

  /** Signals `_stop_playback` sends to the process it drops: SIGTERM to a live
      one, followed by SIGKILL when it has not exited 0.8 s later. */
  function StopSignals(proc: Option<Proc>, alive: bool, exitsOnTerm: bool): (r: seq<OsAction>)
    ensures r != [] <==> proc.Some? && alive
    ensures r != [] ==> r[0] == Signal(proc.value, SigTerm)
    ensures |r| == 2 <==> proc.Some? && alive && !exitsOnTerm
    ensures |r| <= 2
    ensures |r| == 2 ==> r[1] == Signal(proc.value, SigKill)
  {
    if proc.Some? && alive then
      [Signal(proc.value, SigTerm)] + (if exitsOnTerm then [] else [Signal(proc.value, SigKill)])
    else []
  }

  /** What `_start_track` hands to the player: the file, or the resolved stream. */
  function Target(track: Track, w: Launch): Result<string> {
    if track.source == YouTube then w.resolved else Ok(track.uri)
  }

  /** The messages the session shows on the status line. */
  datatype Status =
    | Ready | NoPlayer | YouTubeNeedsMpv | FailedToPlay(reason: string) | Playing
    | NothingPlaying | PauseFailed(reason: string) | Paused | Resumed | Stopped
    | NotInPlaylist | EndOfPlaylist | StartOfPlaylist
    | Added | NothingSelected | Removed
    | ShuffleEmpty | ShuffleOn | ShuffleOff
    | LoadFailed(reason: string) | NoItems | Loaded(count: nat)

  /** The text each message puts on the status line. */
  function Message(m: Status): string {
    match m
    case Ready => "Ready. Space pause/resume. n/p next/prev."
    case NoPlayer => "No player found. Install mpv (recommended) or ffplay."
    case YouTubeNeedsMpv => "YouTube playback requires mpv."
    case FailedToPlay(e) => "Failed to play: " + e
    case Playing => "Playing."
    case NothingPlaying => "Nothing playing."
    case PauseFailed(e) => "Pause/resume failed: " + e
    case Paused => "Paused. (Space to resume)"
    case Resumed => "Resumed."
    case Stopped => "Stopped playback."
    case NotInPlaylist => "Next/Prev works in playlist playback."
    case EndOfPlaylist => "End of playlist."
    case StartOfPlaylist => "Start of playlist."
    case Added => "Added to playlist."
    case NothingSelected => "Remove: nothing selected."
    case Removed => "Removed from playlist."
    case ShuffleEmpty => "Shuffle: playlist empty."
    case ShuffleOn => "Shuffle ON."
    case ShuffleOff => "Shuffle OFF."
    case LoadFailed(e) => "Failed to load playlist: " + e
    case NoItems => "No playlist items found."
    case Loaded(n) => "Loaded " + IntToString(n) + " items."
  }

  /** Every mutable field of the session except the status line. */
  datatype Fields = Fields(
    proc: Option<Proc>,
    playingTrack: Option<Track>,
    playStart: int,
    duration: Option<int>,
    playSource: Option<PlaySource>,
    playlistPlayIndex: Option<nat>,
    paused: bool,
    pausedAt: int,
    pausedTotal: int,
    playlist: seq<Track>,
    shuffleOn: bool,
    playlistOriginal: Option<seq<Track>>)

  /** The fields of `Fields` that describe the current playback, without the playlist. */
  datatype Play = Play(
    proc: Option<Proc>,
    playingTrack: Option<Track>,
    playStart: int,
    duration: Option<int>,
    playSource: Option<PlaySource>,
    playlistPlayIndex: Option<nat>,
    paused: bool,
    pausedAt: int,
    pausedTotal: int)
  {
    /** Nothing is playing and every session field has its reset value. */
    predicate Idle() {
      && proc.None? && playingTrack.None? && duration.None? && playSource.None?
      && playlistPlayIndex.None? && !paused && pausedAt == 0 && pausedTotal == 0
    }

    /** Every field except the process agrees with playing or not playing. */
    predicate Consistent() {
      && (proc.Some? ==> playingTrack.Some?)
      && (playingTrack.None? ==> Idle())
      && (playingTrack.Some? ==> playSource.Some?)
    }

    /** The session invariant: besides `Consistent`, a track is playing only while its process exists. */
    predicate Valid() {
      Consistent() && (playingTrack.Some? ==> proc.Some?)
    }
  }

  /** `del s[i]`: the list one entry shorter. */
  function RemoveAt(s: seq<Track>, i: nat): (r: seq<Track>)
    requires i < |s|
    ensures |r| == |s| - 1
  {
    s[..i] + s[i + 1..]
  }

  /** `del s[i]` keeps the entries before `i` in place, shifts the ones after
      it down by one, and drops exactly one occurrence of `s[i]`. */
  lemma RemoveAtShifts(s: seq<Track>, i: nat)
    requires i < |s|
    ensures forall k :: 0 <= k < |s| - 1 ==> RemoveAt(s, i)[k] == if k < i then s[k] else s[k + 1]
    ensures multiset(RemoveAt(s, i)) + multiset{s[i]} == multiset(s)
  {
    var r := RemoveAt(s, i);
    forall k | 0 <= k < |s| - 1 ensures r[k] == if k < i then s[k] else s[k + 1] {
      if k >= i { assert r[k] == s[i + 1..][k - i]; }
    }
    assert s == s[..i] + [s[i]] + s[i + 1..];
    assert multiset(s) == multiset(s[..i]) + multiset{s[i]} + multiset(s[i + 1..]);
  }

  class Player {
    const player: Option<PlayerKind>
    var proc: Option<Proc>
    var playingTrack: Option<Track>
    var playStart: int
    var duration: Option<int>
    var playSource: Option<PlaySource>
    var playlistPlayIndex: Option<nat>
    var paused: bool
    var pausedAt: int
    var pausedTotal: int
    var playlist: seq<Track>
    var shuffleOn: bool
    var playlistOriginal: Option<seq<Track>>
    var status: Status
    /** Everything sent to the operating system so far. */
    ghost var sent: seq<OsAction>

    function State(): Fields
      reads this
    {
      Fields(proc, playingTrack, playStart, duration, playSource, playlistPlayIndex,
             paused, pausedAt, pausedTotal, playlist, shuffleOn, playlistOriginal)
    }

    function Playback(): Play
      reads this`proc, this`playingTrack, this`playStart, this`duration, this`playSource
      reads this`playlistPlayIndex, this`paused, this`pausedAt, this`pausedTotal
    {
      Play(proc, playingTrack, playStart, duration, playSource, playlistPlayIndex, paused, pausedAt, pausedTotal)
    }

    /** The fields `_current_elapsed` reads. */
    function Clock(): Timing.Clock
      reads this`playingTrack, this`playStart, this`paused, this`pausedAt, this`pausedTotal
    {
      Timing.Clock(playingTrack.Some?, playStart, paused, pausedAt, pausedTotal)
    }

    /** Nothing is playing and every playback field has its reset value. */
    predicate Idle()
      reads this`proc, this`playingTrack, this`playStart, this`duration, this`playSource
      reads this`playlistPlayIndex, this`paused, this`pausedAt, this`pausedTotal
    {
      Playback().Idle()
    }

    /** `Play.Consistent` of the current playback fields. */
    predicate Consistent()
      reads this`proc, this`playingTrack, this`playStart, this`duration, this`playSource
      reads this`playlistPlayIndex, this`paused, this`pausedAt, this`pausedTotal
    {
      Playback().Consistent()
    }

    /** The session invariant `Play.Valid` of the current playback fields. */
    predicate Valid()
      reads this`proc, this`playingTrack, this`playStart, this`duration, this`playSource
      reads this`playlistPlayIndex, this`paused, this`pausedAt, this`pausedTotal
    {
      Playback().Valid()
    }

    /** The guards at the top of `_start_track`: a player exists, and a remote track needs mpv. */
    predicate CanStart(track: Track) {
      player.Some? && (track.source == YouTube ==> player == Some(Mpv))
    }

    /** The status `_start_track` shows when a guard refuses the track. */
    function Refusal(track: Track): Status {
      if player.None? then NoPlayer
      else YouTubeNeedsMpv
    }

    predicate InPlaylistPlayback()
      reads this`playSource, this`playlistPlayIndex
    {
      playSource == Some(FromPlaylist) && playlistPlayIndex.Some?
    }

    constructor(found: Option<PlayerKind>)
      ensures player == found && Idle() && Valid()
      ensures playlist == [] && !shuffleOn && playlistOriginal.None?
      ensures sent == [] && status == Ready
    {
      player := found;
      proc := None;
      playingTrack := None;
      playStart := 0;
      duration := None;
      playSource := None;
      playlistPlayIndex := None;
      paused := false;
      pausedAt := 0;
      pausedTotal := 0;
      playlist := [];
      shuffleOn := false;
      playlistOriginal := None;
      status := Ready;
      sent := [];
    }

    /** `_current_elapsed`: zero when idle, never negative, and while paused
        the value it had when the pause began. */
    function CurrentElapsed(now: int): (e: nat)
      reads this
      ensures playingTrack.None? ==> e == 0
      ensures paused ==> e == Timing.Elapsed(Clock(), pausedAt)
    {
      Timing.Elapsed(Clock(), now)
    }

    /** What `_start_track` leaves behind, from the fields `b` and the OS log
        `sentBefore` it started with: a refused track changes nothing but the
        status line; otherwise see `StartedFrom`. */
    ghost predicate LaunchedFrom(b: Fields, sentBefore: seq<OsAction>, track: Track,
                                 source: PlaySource, index: Option<nat>, now: int, w: Launch)
      reads this
    {
      if !CanStart(track) then State() == b && sent == sentBefore && status == Refusal(track)
      else StartedFrom(b, sentBefore, track, source, index, now, w)
    }

    /** A start past the guards: the old session is stopped; then the new one
        runs, or, when resolving the stream or spawning the player fails, the
        session stays idle. The playlist is not touched. */
    ghost predicate StartedFrom(b: Fields, sentBefore: seq<OsAction>, track: Track,
                                source: PlaySource, index: Option<nat>, now: int, w: Launch)
      reads this
    {
      && playlist == b.playlist && shuffleOn == b.shuffleOn && playlistOriginal == b.playlistOriginal
      && var stopped := sentBefore + StopSignals(b.proc, w.oldAlive, w.oldExitsOnTerm);
         match Target(track, w)
         case Err(e) => Idle() && playStart == b.playStart && sent == stopped && status == FailedToPlay(e)
         case Ok(target) =>
           match w.spawned
           case Err(e) => Idle() && playStart == b.playStart && sent == stopped && status == FailedToPlay(e)
           case Ok(p) =>
             && proc == Some(p) && playingTrack == Some(track)
             && Clock() == Timing.Start(now)
             && duration == (if track.source == Local then w.duration else None)
             && playSource == Some(source) && playlistPlayIndex == index
             && sent == stopped + [Spawn(target)] && status == Playing
    }

    /** `_stop_playback`: resets every session field but the start time
        whatever the state, and signals the dropped process if it is still alive. */
    method StopPlayback(alive: bool, exitsOnTerm: bool)
      modifies this
      ensures Idle() && Valid() && playStart == old(playStart)
      ensures playlist == old(playlist) && shuffleOn == old(shuffleOn)
      ensures playlistOriginal == old(playlistOriginal) && status == old(status)
      ensures sent == old(sent) + StopSignals(old(proc), alive, exitsOnTerm)
    {
      var dropped := proc;
      proc := None;
      playingTrack := None;
      duration := None;
      playSource := None;
      playlistPlayIndex := None;
      paused := false;
      pausedAt := 0;
      pausedTotal := 0;
      sent := sent + StopSignals(dropped, alive, exitsOnTerm);
    }

    /** `action_stop`: the session ends, whatever it was doing. */
    method Stop(alive: bool, exitsOnTerm: bool)
      modifies this
      ensures Idle() && Valid() && status == Stopped
      ensures playlist == old(playlist) && shuffleOn == old(shuffleOn) && playlistOriginal == old(playlistOriginal)
      ensures sent == old(sent) + StopSignals(old(proc), alive, exitsOnTerm)
    {
      StopPlayback(alive, exitsOnTerm);
      status := Stopped;
    }

    /** `_start_track`. */
    method StartTrack(track: Track, source: PlaySource, index: Option<nat>, now: int, w: Launch)
      modifies this
      ensures LaunchedFrom(old(State()), old(sent), track, source, index, now, w)
      ensures CanStart(track) && Target(track, w).Ok? && w.spawned.Ok? ==>
        && proc == Some(w.spawned.value) && playingTrack == Some(track) && !paused
        && playSource == Some(source) && playlistPlayIndex == index && playlist == old(playlist)
      ensures old(Valid()) ==> Valid()
    {
      if player.None? {
        status := NoPlayer;
        return;
      }
      if track.source == YouTube && player != Some(Mpv) {
        status := YouTubeNeedsMpv;
        return;
      }
      SpawnPlayer(track, source, index, now, w);
    }

    /** The `try` block of `_start_track`, reached once the guards have passed. */
    method SpawnPlayer(track: Track, source: PlaySource, index: Option<nat>, now: int, w: Launch)
      requires CanStart(track)
      modifies this
      ensures StartedFrom(old(State()), old(sent), track, source, index, now, w)
      ensures Valid()
    {
      StopPlayback(w.oldAlive, w.oldExitsOnTerm);
      var target := Target(track, w);
      if target.Err? {
        status := FailedToPlay(target.error);
        return;
      }
      if w.spawned.Err? {
        status := FailedToPlay(w.spawned.error);
        return;
      }
      Begin(track, source, index, now, target.value, w.spawned.value,
            if track.source == Local then w.duration else None);
    }

    /** The end of the `try` block of `_start_track`: the spawned process becomes the session. */
    method Begin(track: Track, source: PlaySource, index: Option<nat>, now: int,
                 target: string, p: Proc, dur: Option<int>)
      requires Idle()
      modifies this`proc, this`playingTrack, this`playStart, this`duration, this`playSource
      modifies this`playlistPlayIndex, this`sent, this`status
      ensures proc == Some(p) && playingTrack == Some(track) && Clock() == Timing.Start(now)
      ensures duration == dur && playSource == Some(source) && playlistPlayIndex == index
      ensures sent == old(sent) + [Spawn(target)] && status == Playing
    {
      sent := sent + [Spawn(target)];
      proc, playingTrack, playStart := Some(p), Some(track), now;
      duration := dur;
      playSource, playlistPlayIndex, status := Some(source), index, Playing;
    }

    /** `action_toggle_pause`: stops or continues a live process; the pause
        timers follow `Timing.Toggle`. Nothing changes when there is no live
        process or the signal cannot be sent. */
    method TogglePause(now: int, alive: bool, failure: Option<string>)
      modifies this
      ensures old(proc).None? || !alive ==>
        State() == old(State()) && sent == old(sent) && status == NothingPlaying
      ensures old(proc).Some? && alive && failure.Some? ==>
        State() == old(State()) && sent == old(sent) && status == PauseFailed(failure.value)
      ensures old(proc).Some? && alive && failure.None? ==>
        && Clock() == Timing.Toggle(old(Clock()), now)
        && State() == old(State()).(paused := paused, pausedAt := pausedAt, pausedTotal := pausedTotal)
        && sent == old(sent) + [Signal(old(proc).value, if old(paused) then SigCont else SigStop)]
        && status == (if old(paused) then Resumed else Paused)
      ensures old(Valid()) ==> Valid()
    {
      if proc.None? || !alive {
        status := NothingPlaying;
        return;
      }
      if failure.Some? {
        status := PauseFailed(failure.value);
        return;
      }
      if !paused {
        sent := sent + [Signal(proc.value, SigStop)];
        paused := true;
        pausedAt := now;
        status := Paused;
      } else {
        sent := sent + [Signal(proc.value, SigCont)];
        pausedTotal := pausedTotal + Timing.Max0(now - pausedAt);
        paused := false;
        status := Resumed;
      }
    }

    /** `action_next_track`: in playlist playback, starts the next playlist entry. */
    method NextTrack(now: int, w: Launch)
      modifies this
      ensures old(playingTrack).None? ==>
        State() == old(State()) && sent == old(sent) && status == NothingPlaying
      ensures old(playingTrack).Some? && !old(InPlaylistPlayback()) ==>
        State() == old(State()) && sent == old(sent) && status == NotInPlaylist
      ensures old(playingTrack.Some? && InPlaylistPlayback() && playlistPlayIndex.value + 1 >= |playlist|) ==>
        State() == old(State()) && sent == old(sent) && status == EndOfPlaylist
      ensures old(playingTrack.Some? && InPlaylistPlayback() && playlistPlayIndex.value + 1 < |playlist|) ==>
        LaunchedFrom(old(State()), old(sent), old(playlist[playlistPlayIndex.value + 1]),
                     FromPlaylist, Some(old(playlistPlayIndex.value) + 1), now, w)
      ensures old(Valid()) ==> Valid()
    {
      if playingTrack.None? {
        status := NothingPlaying;
        return;
      }
      if !InPlaylistPlayback() {
        status := NotInPlaylist;
        return;
      }
      var nxt := playlistPlayIndex.value + 1;
      if nxt >= |playlist| {
        status := EndOfPlaylist;
        return;
      }
      StartTrack(playlist[nxt], FromPlaylist, Some(nxt), now, w);
    }

    /** `action_prev_track` as written: the only bound it checks is the lower
        one, so an index left beyond the end of a shortened playlist raises an
        IndexError (`raised`), with the session left as it was. */
    method PrevTrackAsWritten(now: int, w: Launch) returns (raised: bool)
      modifies this
      ensures raised <==> old(playingTrack.Some? && InPlaylistPlayback()
                             && playlistPlayIndex.value >= 1 && playlistPlayIndex.value - 1 >= |playlist|)
      ensures raised ==> State() == old(State()) && sent == old(sent) && status == old(status)
      ensures old(playingTrack.Some? && InPlaylistPlayback() && playlistPlayIndex.value == 0) ==>
        State() == old(State()) && sent == old(sent) && status == StartOfPlaylist
      ensures old(playingTrack.Some? && InPlaylistPlayback()
                  && 1 <= playlistPlayIndex.value && playlistPlayIndex.value - 1 < |playlist|) ==>
        LaunchedFrom(old(State()), old(sent), old(playlist[playlistPlayIndex.value - 1]),
                     FromPlaylist, Some(old(playlistPlayIndex.value) - 1), now, w)
    {
      raised := false;
      if playingTrack.None? {
        status := NothingPlaying;
        return;
      }
      if !InPlaylistPlayback() {
        status := NotInPlaylist;
        return;
      }
      var prv: int := playlistPlayIndex.value - 1;
      if prv < 0 {
        status := StartOfPlaylist;
        return;
      }
      if prv >= |playlist| {
        raised := true;
        return;
      }
      StartTrack(playlist[prv], FromPlaylist, Some(prv), now, w);
    }

    /** `action_prev_track` with the missing upper bound: an index beyond the
        end of the playlist is refused the way `action_next_track` refuses one. */
    method PrevTrack(now: int, w: Launch)
      modifies this
      ensures old(playingTrack).None? ==>
        State() == old(State()) && sent == old(sent) && status == NothingPlaying
      ensures old(playingTrack).Some? && !old(InPlaylistPlayback()) ==>
        State() == old(State()) && sent == old(sent) && status == NotInPlaylist
      ensures old(playingTrack.Some? && InPlaylistPlayback() && playlistPlayIndex.value == 0) ==>
        State() == old(State()) && sent == old(sent) && status == StartOfPlaylist
      ensures old(playingTrack.Some? && InPlaylistPlayback()
                  && playlistPlayIndex.value >= 1 && playlistPlayIndex.value - 1 >= |playlist|) ==>
        State() == old(State()) && sent == old(sent) && status == EndOfPlaylist
      ensures old(playingTrack.Some? && InPlaylistPlayback()
                  && 1 <= playlistPlayIndex.value && playlistPlayIndex.value - 1 < |playlist|) ==>
        LaunchedFrom(old(State()), old(sent), old(playlist[playlistPlayIndex.value - 1]),
                     FromPlaylist, Some(old(playlistPlayIndex.value) - 1), now, w)
      ensures old(Valid()) ==> Valid()
    {
      if playingTrack.None? {
        status := NothingPlaying;
        return;
      }
      if !InPlaylistPlayback() {
        status := NotInPlaylist;
        return;
      }
      var prv: int := playlistPlayIndex.value - 1;
      if prv < 0 {
        status := StartOfPlaylist;
        return;
      }
      if prv >= |playlist| {
        status := EndOfPlaylist;
        return;
      }
      StartTrack(playlist[prv], FromPlaylist, Some(prv), now, w);
    }

    /** Whether the per-tick check finds the process gone with a next playlist entry to move to. */
    predicate AdvanceDue(alive: bool)
      reads this
    {
      && playingTrack.Some? && proc.Some? && !alive
      && InPlaylistPlayback() && playlistPlayIndex.value + 1 < |playlist|
    }

    /** `_tick_progress` as written. When the process has exited it is dropped,
        and the next playlist entry is started; if `_start_track` refuses that
        entry, the old track stays "playing" with no process (`Valid` fails). */
    method TickProgressAsWritten(now: int, alive: bool, w: Launch)
      modifies this
      ensures old(playingTrack.None? || proc.None? || alive) ==>
        State() == old(State()) && sent == old(sent) && status == old(status)
      ensures old(AdvanceDue(alive)) ==>
        LaunchedFrom(old(State()).(proc := None), old(sent), old(playlist[playlistPlayIndex.value + 1]),
                     FromPlaylist, Some(old(playlistPlayIndex.value) + 1), now, w)
      ensures old(playingTrack.Some? && proc.Some? && !alive && !AdvanceDue(alive)) ==>
        && Idle() && playlist == old(playlist) && shuffleOn == old(shuffleOn)
        && playlistOriginal == old(playlistOriginal) && sent == old(sent) && status == old(status)
      ensures old(Valid()) ==> Consistent()
    {
      if playingTrack.None? {
        return;
      }
      if proc.Some? && !alive {
        proc := None;
        if InPlaylistPlayback() && playlistPlayIndex.value + 1 < |playlist| {
          var nxt := playlistPlayIndex.value + 1;
          StartTrack(playlist[nxt], FromPlaylist, Some(nxt), now, w);
          return;
        }
        StopPlayback(false, true);
        return;
      }
    }

    /** `_tick_progress` with the session ended when the next entry cannot be started. */
    method TickProgress(now: int, alive: bool, w: Launch)
      modifies this
      ensures old(playingTrack.None? || proc.None? || alive) ==>
        State() == old(State()) && sent == old(sent) && status == old(status)
      ensures old(AdvanceDue(alive) && CanStart(playlist[playlistPlayIndex.value + 1])) ==>
        LaunchedFrom(old(State()).(proc := None), old(sent), old(playlist[playlistPlayIndex.value + 1]),
                     FromPlaylist, Some(old(playlistPlayIndex.value) + 1), now, w)
      ensures old(AdvanceDue(alive) && !CanStart(playlist[playlistPlayIndex.value + 1])) ==>
        && Idle() && playlist == old(playlist) && shuffleOn == old(shuffleOn)
        && playlistOriginal == old(playlistOriginal) && sent == old(sent)
        && status == Refusal(old(playlist[playlistPlayIndex.value + 1]))
      ensures old(playingTrack.Some? && proc.Some? && !alive && !AdvanceDue(alive)) ==>
        && Idle() && playlist == old(playlist) && shuffleOn == old(shuffleOn)
        && playlistOriginal == old(playlistOriginal) && sent == old(sent) && status == old(status)
      ensures old(Valid()) ==> Valid()
    {
      if playingTrack.None? {
        return;
      }
      if proc.Some? && !alive {
        proc := None;
        if InPlaylistPlayback() && playlistPlayIndex.value + 1 < |playlist| {
          var nxt := playlistPlayIndex.value + 1;
          var next := playlist[nxt];
          StartTrack(next, FromPlaylist, Some(nxt), now, w);
          if !CanStart(next) {
            StopPlayback(false, true);
          }
          return;
        }
        StopPlayback(false, true);
        return;
      }
    }

    // ---------- playlist editing ----------

    /** `current_playlist_index`: the playlist cursor, when it points at an entry. */
    function CurrentPlaylistIndex(cursor: Option<int>): (r: Option<nat>)
      reads this`playlist
      ensures r.Some? <==> cursor.Some? && 0 <= cursor.value < |playlist|
      ensures r.Some? ==> r.value == cursor.value
    {
      if cursor.None? || playlist == [] then None
      else if 0 <= cursor.value < |playlist| then Some(cursor.value)
      else None
    }

    /** `action_add_to_playlist`: appends the selected track, if any. Only the
        playlist and the status line may change. */
    method AddToPlaylist(selected: Option<Track>)
      modifies this`playlist, this`status
      ensures selected.None? ==> playlist == old(playlist) && status == old(status)
      ensures selected.Some? ==> playlist == old(playlist) + [selected.value] && status == Added
    {
      if selected.None? {
        return;
      }
      playlist := playlist + [selected.value];
      status := Added;
    }

    /** `action_remove_from_playlist`: removes the entry under the cursor; the
        index of the track playing is left as it was. */
    method RemoveFromPlaylist(cursor: Option<int>)
      modifies this`playlist, this`status
      ensures old(CurrentPlaylistIndex(cursor)).None? ==>
        playlist == old(playlist) && status == NothingSelected
      ensures old(CurrentPlaylistIndex(cursor)).Some? ==>
        && playlist == RemoveAt(old(playlist), old(CurrentPlaylistIndex(cursor)).value)
        && status == Removed
    {
      var idx := CurrentPlaylistIndex(cursor);
      if idx.None? {
        status := NothingSelected;
        return;
      }
      playlist := RemoveAt(playlist, idx.value);
      status := Removed;
    }

    /** `action_toggle_shuffle` as written: turning shuffle on keeps an existing
        snapshot, however old, so turning it off can restore a stale list. */
    method ToggleShuffleAsWritten(ds: seq<nat>)
      requires !shuffleOn ==> Shuffling.Draws(|playlist|, ds)
      modifies this`playlist, this`shuffleOn, this`playlistOriginal, this`status
      ensures old(playlist) == [] ==>
        playlist == old(playlist) && shuffleOn == old(shuffleOn)
        && playlistOriginal == old(playlistOriginal) && status == ShuffleEmpty
      ensures old(playlist != [] && !shuffleOn) ==>
        && playlistOriginal == (if old(playlistOriginal).None? then Some(old(playlist)) else old(playlistOriginal))
        && playlist == Shuffling.ShuffleBy(old(playlist), ds)
        && shuffleOn && status == ShuffleOn
      ensures old(playlist != [] && shuffleOn) ==>
        && playlist == (if old(playlistOriginal).Some? then old(playlistOriginal).value else old(playlist))
        && playlistOriginal == old(playlistOriginal)
        && !shuffleOn && status == ShuffleOff
    {
      if playlist == [] {
        status := ShuffleEmpty;
        return;
      }
      if !shuffleOn {
        if playlistOriginal.None? {
          playlistOriginal := Some(playlist);
        }
        playlist := Shuffling.ShuffleBy(playlist, ds);
        shuffleOn := true;
        status := ShuffleOn;
      } else {
        if playlistOriginal.Some? {
          playlist := playlistOriginal.value;
        }
        shuffleOn := false;
        status := ShuffleOff;
      }
    }

    /** `action_toggle_shuffle` with the snapshot taken afresh each time shuffle
        is turned on: shuffling reorders the playlist, and turning shuffle off
        again restores the playlist as it was when shuffle was turned on. */
    method ToggleShuffle(ds: seq<nat>)
      requires !shuffleOn ==> Shuffling.Draws(|playlist|, ds)
      modifies this`playlist, this`shuffleOn, this`playlistOriginal, this`status
      ensures old(playlist) == [] ==>
        playlist == old(playlist) && shuffleOn == old(shuffleOn)
        && playlistOriginal == old(playlistOriginal) && status == ShuffleEmpty
      ensures old(playlist != [] && !shuffleOn) ==>
        && playlistOriginal == Some(old(playlist))
        && playlist == Shuffling.ShuffleBy(old(playlist), ds)
        && multiset(playlist) == old(multiset(playlist))
        && shuffleOn && status == ShuffleOn
      ensures old(playlist != [] && shuffleOn) ==>
        && playlist == (if old(playlistOriginal).Some? then old(playlistOriginal).value else old(playlist))
        && playlistOriginal == old(playlistOriginal)
        && !shuffleOn && status == ShuffleOff
    {
      if playlist == [] {
        status := ShuffleEmpty;
        return;
      }
      if !shuffleOn {
        ShuffleIn(ds);
      } else {
        ShuffleOut();
      }
    }

    /** Turning shuffle on: the order is saved, then the playlist shuffled. */
    method ShuffleIn(ds: seq<nat>)
      requires Shuffling.Draws(|playlist|, ds)
      modifies this`playlist, this`shuffleOn, this`playlistOriginal, this`status
      ensures playlistOriginal == Some(old(playlist)) && playlist == Shuffling.ShuffleBy(old(playlist), ds)
      ensures multiset(playlist) == multiset(old(playlist))
      ensures shuffleOn && status == ShuffleOn
    {
      var before := playlist;
      var shuffled := Shuffling.ShuffleBy(before, ds);
      playlistOriginal, playlist := Some(before), shuffled;
      shuffleOn, status := true, ShuffleOn;
    }

    /** Turning shuffle off: the saved order, if any, comes back; it stays saved. */
    method ShuffleOut()
      modifies this`playlist, this`shuffleOn, this`status
      ensures playlist == (if old(playlistOriginal).Some? then old(playlistOriginal).value else old(playlist))
      ensures !shuffleOn && status == ShuffleOff
    {
      if playlistOriginal.Some? {
        playlist := playlistOriginal.value;
      }
      shuffleOn := false;
      status := ShuffleOff;
    }

    /** Shuffle turned on and straight off again gives back the playlist in its
        order, for a playlist of any length. */
    method ShuffleOnOff(ds: seq<nat>)
      requires !shuffleOn && Shuffling.Draws(|playlist|, ds)
      modifies this`playlist, this`shuffleOn, this`playlistOriginal, this`status
      ensures playlist == old(playlist) && !shuffleOn
      ensures old(playlist) != [] ==> playlistOriginal == Some(old(playlist)) && status == ShuffleOff
    {
      ToggleShuffle(ds);
      ToggleShuffle([]);
    }

    /** The playlist resets of `_load_youtube_playlist`, for the items the
        fetch returned or the exception it raised. */
    method LoadPlaylist(fetched: Result<seq<Track>>)
      modifies this`playlist, this`shuffleOn, this`playlistOriginal, this`status
      ensures !shuffleOn
      ensures fetched.Err? ==>
        playlist == old(playlist) && playlistOriginal.None? && status == LoadFailed(fetched.error)
      ensures fetched == Ok([]) ==>
        playlist == old(playlist) && playlistOriginal.None? && status == NoItems
      ensures fetched.Ok? && fetched.value != [] ==>
        && playlist == fetched.value && playlistOriginal == Some(fetched.value)
        && status == Loaded(|fetched.value|)
    {
      shuffleOn := false;
      playlistOriginal := None;
      match fetched
      case Err(e) =>
        status := LoadFailed(e);
      case Ok(items) =>
        if items == [] {
          status := NoItems;
          return;
        }
        playlist := items;
        playlistOriginal := Some(items);
        status := Loaded(|items|);
    }
  }

  // ---------- scenarios behind the findings ----------

  /** A start whose every external call succeeds. */
  function Smooth(pid: int): Launch {
    Launch(false, true, Ok("stream"), Ok(Proc(pid)), None)
  }

  /** An ffplay session playing a local track, first of a playlist whose second
      entry is a remote track. */
  method PlayingLocalBeforeRemote(a: Track, b: Track) returns (p: Player)
    requires a.source == Local && b.source == YouTube
    ensures fresh(p) && p.player == Some(Ffplay) && p.playlist == [a, b]
    ensures p.playingTrack == Some(a) && p.proc.Some? && p.Valid()
    ensures p.InPlaylistPlayback() && p.playlistPlayIndex == Some(0)
  {
    p := new Player(Some(Ffplay));
    p.LoadPlaylist(Ok([a, b]));
    assert p.CanStart(a) && Target(a, Smooth(1)).Ok? && p.Valid();
    p.StartTrack(a, FromPlaylist, Some(0), 0, Smooth(1));
  }

  /** With ffplay as the player and a remote track after the local one in the
      playlist, the automatic advance leaves a track "playing" with no process. */
  method AutoAdvanceStrandsTrack(a: Track, b: Track) returns (p: Player)
    requires a.source == Local && b.source == YouTube
    ensures p.playingTrack == Some(a) && p.proc.None? && !p.Valid()
  {
    p := PlayingLocalBeforeRemote(a, b);
    assert p.AdvanceDue(false) && !p.CanStart(b);
    p.TickProgressAsWritten(200, false, Smooth(2));
  }

  /** The same steps with the corrected tick end the session. */
  method AutoAdvanceEndsSession(a: Track, b: Track) returns (p: Player)
    requires a.source == Local && b.source == YouTube
    ensures p.Idle() && p.Valid() && p.status == YouTubeNeedsMpv
  {
    p := PlayingLocalBeforeRemote(a, b);
    assert p.AdvanceDue(false) && !p.CanStart(b);
    p.TickProgress(200, false, Smooth(2));
  }

  /** A session playing the third entry of a three-entry playlist. */
  method PlayingThirdOfThree(a: Track, b: Track, c: Track) returns (p: Player)
    ensures fresh(p) && |p.playlist| == 3
    ensures p.playingTrack == Some(c) && p.InPlaylistPlayback() && p.playlistPlayIndex == Some(2)
  {
    p := new Player(Some(Mpv));
    p.LoadPlaylist(Ok([a, b, c]));
    assert p.CanStart(c) && Target(c, Smooth(1)).Ok? && |p.playlist| == 3;
    p.StartTrack(c, FromPlaylist, Some(2), 0, Smooth(1));
  }

  /** Playing the third of three entries, removing the first two and pressing
      "previous" raises an IndexError. */
  method PrevAfterRemoveRaises(a: Track, b: Track, c: Track) returns (p: Player, raised: bool)
    ensures raised
  {
    p := PlayingThirdOfThree(a, b, c);
    p.RemoveFromPlaylist(Some(0));
    p.RemoveFromPlaylist(Some(0));
    assert p.playingTrack.Some? && p.InPlaylistPlayback() && p.playlistPlayIndex == Some(2);
    assert |p.playlist| == 1;
    raised := p.PrevTrackAsWritten(5, Smooth(2));
  }

  /** A session that loaded the one-item playlist `[a]` and then added `b`. */
  method LoadedThenAdded(a: Track, b: Track) returns (p: Player)
    ensures fresh(p) && p.playlist == [a, b] && !p.shuffleOn && p.playlistOriginal == Some([a])
  {
    p := new Player(Some(Mpv));
    p.LoadPlaylist(Ok([a]));
    p.AddToPlaylist(Some(b));
  }

  /** Load a one-item playlist, add a track, and turn shuffle on and off: the
      added track is gone, because the snapshot taken at load time is restored. */
  method ShuffleDropsAddedTrack(a: Track, b: Track) returns (p: Player)
    requires a != b
    ensures p.playlist == [a] && b !in p.playlist
  {
    p := LoadedThenAdded(a, b);
    p.ToggleShuffleAsWritten([0]);
    assert p.shuffleOn && p.playlistOriginal == Some([a]);
    p.ToggleShuffleAsWritten([]);
  }

  /** The same steps with the corrected toggle give back the playlist as it was. */
  method ShuffleKeepsAddedTrack(a: Track, b: Track) returns (p: Player)
    ensures p.playlist == [a, b]
  {
    p := LoadedThenAdded(a, b);
    p.ToggleShuffle([0]);
    assert p.shuffleOn && p.playlistOriginal == Some([a, b]);
    p.ToggleShuffle([]);
  }
}
