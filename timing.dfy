/** The elapsed-time estimate of a playback session and the pause/resume
    bookkeeping it rests on, with time as whole seconds of a monotonic clock. */
module Timing {

  /** The session fields `_current_elapsed` reads: whether a track is playing,
      when it started, whether it is paused, since when, and the total time
      spent paused before that. */
  datatype Clock = Clock(playing: bool, playStart: int, paused: bool, pausedAt: int, pausedTotal: int)

  function Max0(x: int): (r: nat)
    ensures r >= x && (x >= 0 ==> r == x)
    ensures x < 0 ==> r == 0
  {
    if x < 0 then 0 else x
  }

  /** The clock of an idle session: `_stop_playback` zeroes the pause timers. */
  const Idle: Clock := Clock(false, 0, false, 0, 0)

  /** The clock `_start_track` sets up for a track started at `now`. */
  function Start(now: int): (c: Clock)
    ensures c.playing && !c.paused && c.pausedTotal == 0
  {
    Clock(true, now, false, 0, 0)
  }

  /** The time the elapsed estimate is taken at: the moment of pausing, or `now`. */
  function Reading(c: Clock, now: int): int {
    if c.paused then c.pausedAt else now
  }

  /** `_current_elapsed`: seconds played so far, never negative. */
  function Elapsed(c: Clock, now: int): (e: nat)
    ensures !c.playing ==> e == 0
  {
    if !c.playing then 0
    else if c.paused then Max0(c.pausedAt - c.playStart - c.pausedTotal)
    else Max0(now - c.playStart - c.pausedTotal)
  }

  /** The pause half of `action_toggle_pause`. */
  function Pause(c: Clock, now: int): (d: Clock)
    requires !c.paused
    ensures d.paused && d.pausedAt == now
    ensures d.playing == c.playing && d.playStart == c.playStart && d.pausedTotal == c.pausedTotal
  {
    c.(paused := true, pausedAt := now)
  }

  /** The resume half: the pause just ended is added to the total, never a negative amount. */
  function Resume(c: Clock, now: int): (d: Clock)
    requires c.paused
    ensures !d.paused && d.pausedTotal >= c.pausedTotal
    ensures now >= c.pausedAt ==> d.pausedTotal == c.pausedTotal + (now - c.pausedAt)
    ensures now < c.pausedAt ==> d.pausedTotal == c.pausedTotal
    ensures d.playing == c.playing && d.playStart == c.playStart && d.pausedAt == c.pausedAt
  {
    c.(paused := false, pausedTotal := c.pausedTotal + Max0(now - c.pausedAt))
  }

  function Toggle(c: Clock, now: int): (d: Clock)
    ensures d.paused == !c.paused
  {
    if c.paused then Resume(c, now) else Pause(c, now)
  }

  /** While paused the estimate is frozen. */
  lemma PausedIgnoresNow(c: Clock, t1: int, t2: int)
    requires c.paused
    ensures Elapsed(c, t1) == Elapsed(c, t2)
  {
  }

  /** While playing and unpaused the estimate never runs backwards and
      advances at most as fast as the clock. */
  lemma RunningAdvances(c: Clock, t1: int, t2: int)
    requires !c.paused && t1 <= t2
    ensures Elapsed(c, t1) <= Elapsed(c, t2) <= Elapsed(c, t1) + (t2 - t1)
  {
  }

  /** Pausing at `now` does not change the estimate at `now`. */
  lemma PauseIsContinuous(c: Clock, now: int)
    requires !c.paused
    ensures Elapsed(Pause(c, now), now) == Elapsed(c, now)
  {
  }

  /** Resuming at a moment no earlier than the pause does not change the estimate. */
  lemma ResumeIsContinuous(c: Clock, now: int)
    requires c.paused && c.pausedAt <= now
    ensures Elapsed(Resume(c, now), now) == Elapsed(c, now)
  {
  }

  // ---------- replaying a history of pause/resume presses ----------

  /** The times, each no earlier than the one before, starting from `t`. */
  predicate Ordered(t: int, ts: seq<int>)
    decreases |ts|
  {
    ts == [] || (t <= ts[0] && Ordered(ts[0], ts[1..]))
  }

  function Last(t: int, ts: seq<int>): int {
    if ts == [] then t else ts[|ts| - 1]
  }

  /** The clock after pause/resume presses at the times `ts`. */
  function Replay(c: Clock, ts: seq<int>): Clock
    decreases |ts|
  {
    if ts == [] then c else Replay(Toggle(c, ts[0]), ts[1..])
  }

  /** The reference for the estimate: the total length of the stretches, from
      `from` up to `now` with a switch at every time in `ts`, during which the
      track was playing (`running` says whether it is at `from`). */
  function Played(from: int, running: bool, ts: seq<int>, now: int): int
    decreases |ts|
  {
    if ts == [] then (if running then now - from else 0)
    else (if running then ts[0] - from else 0) + Played(ts[0], !running, ts[1..], now)
  }

  /** A clock that is playing, whose pause began by `t`, and whose unclipped estimate is not negative. */
  predicate Sane(c: Clock, t: int) {
    && c.playing
    && (c.paused ==> c.pausedAt <= t)
    && Reading(c, t) - c.playStart - c.pausedTotal >= 0
  }

  lemma ToggleKeepsSane(c: Clock, t: int, t1: int)
    requires Sane(c, t) && t <= t1
    ensures Sane(Toggle(c, t1), t1)
    ensures Elapsed(Toggle(c, t1), t1) == Elapsed(c, t) + (if c.paused then 0 else t1 - t)
  {
  }

  /** Over any history of presses at non-decreasing times, the estimate is the
      estimate at the start plus the time actually spent playing since then. */
  lemma {:induction false} ElapsedIsPlayedTime(c: Clock, t: int, ts: seq<int>, now: int)
    requires Sane(c, t) && Ordered(t, ts) && Last(t, ts) <= now
    ensures Sane(Replay(c, ts), Last(t, ts))
    ensures Elapsed(Replay(c, ts), now) == Elapsed(c, t) + Played(t, !c.paused, ts, now)
    decreases |ts|
  {
    if ts != [] {
      ToggleKeepsSane(c, t, ts[0]);
      var rest := ts[1..];
      assert Last(ts[0], rest) == Last(t, ts);
      ElapsedIsPlayedTime(Toggle(c, ts[0]), ts[0], rest, now);
    }
  }

  lemma {:induction false} PlayedNonNegative(from: int, running: bool, ts: seq<int>, now: int)
    requires Ordered(from, ts) && Last(from, ts) <= now
    ensures Played(from, running, ts, now) >= 0
    decreases |ts|
  {
    if ts != [] {
      assert Last(ts[0], ts[1..]) == Last(from, ts);
      PlayedNonNegative(ts[0], !running, ts[1..], now);
    }
  }

  /** For a track started at `start`, the estimate after any presses is exactly its playing time. */
  lemma FromStart(start: int, ts: seq<int>, now: int)
    requires Ordered(start, ts) && Last(start, ts) <= now
    ensures Elapsed(Replay(Start(start), ts), now) == Played(start, true, ts, now)
  {
    ElapsedIsPlayedTime(Start(start), start, ts, now);
  }

  /** The estimate never decreases over any pause/resume history with non-decreasing time. */
  lemma ElapsedNeverDecreases(c: Clock, t: int, ts: seq<int>, now: int)
    requires Sane(c, t) && Ordered(t, ts) && Last(t, ts) <= now
    ensures Elapsed(Replay(c, ts), now) >= Elapsed(c, t)
  {
    ElapsedIsPlayedTime(c, t, ts, now);
    PlayedNonNegative(t, !c.paused, ts, now);
  }
}
