/** The download feature's controller: the folder prompt, starting and
    cancelling a download, and the background download that works through the playlist,
    proved to do what `Batch` specifies. */
module Download {
  import opened Wrappers
  import opened Text
  import opened Tracks
  import Session
  import opened Batch

  /** Every field of the controller except its status line. */
  datatype Job = Job(
    promptActive: bool,
    inProgress: bool,
    cancelRequested: bool,
    startedAt: int,
    cur: nat,
    total: nat,
    heading: Heading,
    proc: Option<Session.Proc>)

  /** The fields the `finally` block of the download task leaves behind. */
  predicate Reset(j: Job, before: Job) {
    j == before.(inProgress := false, cancelRequested := false, cur := 0, total := 0, heading := Blank, proc := None)
  }

  class Downloader {
    var promptActive: bool
    var inProgress: bool
    var cancelRequested: bool
    var startedAt: int
    var cur: nat
    var total: nat
    var heading: Heading
    var proc: Option<Session.Proc>
    /** The last message the download feature put on the status line. */
    var status: Option<Note>
    /** Everything the download feature has done that can be observed. */
    ghost var log: seq<Event>

    function State(): Job
      reads this
    {
      Job(promptActive, inProgress, cancelRequested, startedAt, cur, total, heading, proc)
    }

    /** Only a running download has a tool process or a pending cancel request. */
    predicate Valid()
      reads this
    {
      (proc.Some? ==> inProgress) && (!inProgress ==> !cancelRequested)
    }

    constructor ()
      ensures Valid() && State() == Job(false, false, false, 0, 0, 0, Blank, None)
      ensures status.None? && log == []
    {
      promptActive, inProgress, cancelRequested := false, false, false;
      startedAt, cur, total, heading, proc := 0, 0, 0, Blank, None;
      status, log := None, [];
    }

    /** `set_status`. */
    method Say(n: Note)
      modifies this
      ensures State() == old(State()) && status == Some(n) && log == old(log) + [Said(n)]
    {
      status := Some(n);
      log := log + [Said(n)];
    }

    /** `action_download_playlist`: refused while a download runs or when
        the playlist is empty; otherwise the folder prompt is shown, unless
        it already is. */
    method ActionDownloadPlaylist(playlist: seq<Track>)
      requires Valid()
      modifies this
      ensures Valid()
      ensures old(inProgress) ==> State() == old(State()) && log == old(log) + [Said(AlreadyRunning)]
      ensures !old(inProgress) && playlist == [] ==> State() == old(State()) && log == old(log) + [Said(PlaylistEmpty)]
      ensures !old(inProgress) && playlist != [] && old(promptActive) ==> State() == old(State()) && log == old(log)
      ensures !old(inProgress) && playlist != [] && !old(promptActive) ==>
        State() == old(State()).(promptActive := true) && log == old(log) + [Said(AskFolder)]
    {
      if inProgress {
        Say(AlreadyRunning);
      } else if playlist == [] {
        Say(PlaylistEmpty);
      } else if !promptActive {
        promptActive := true;
        Say(AskFolder);
      }
    }

    /** `_hide_download_prompt`; Esc while the prompt is shown hides it as cancelled. */
    method HidePrompt(cancelled: bool)
      requires Valid()
      modifies this
      ensures Valid() && State() == old(State()).(promptActive := false)
      ensures log == old(log) + (if cancelled then [Said(DownloadCancelled)] else [])
    {
      promptActive := false;
      if cancelled {
        Say(DownloadCancelled);
      }
    }

    /** `_kickoff_download_playlist_items`: the folder is expanded against
        `home` and normalised; one that cannot be created, or a remote item
        without yt-dlp installed, is reported and nothing starts; otherwise
        the progress fields are set up at `now` and the download runs. */
    method Kickoff(folder: string, playlist: seq<Track>, mkdirError: Option<string>, hasYtDlp: bool, home: string, now: int)
      requires Valid()
      modifies this
      ensures Valid()
      ensures mkdirError.Some? ==> State() == old(State()) && log == old(log) + [Said(InvalidFolder(mkdirError.value))]
      ensures mkdirError.None? && !hasYtDlp && (exists t :: t in playlist && t.source == YouTube) ==>
        State() == old(State()) && log == old(log) + [Said(NoYtDlp)]
      ensures mkdirError.None? && (hasYtDlp || forall t :: t in playlist ==> t.source == Local) ==>
        && State() == old(State()).(inProgress := true, cancelRequested := false, startedAt := now,
                                    cur := 0, total := |playlist|, heading := Starting)
        && log == old(log) + [Said(Downloading(|playlist|, Paths.DestFolder(folder, home)))]
    {
      var dest := Paths.DestFolder(folder, home);
      if mkdirError.Some? {
        Say(InvalidFolder(mkdirError.value));
        return;
      }
      if !hasYtDlp && exists t :: t in playlist && t.source == YouTube {
        Say(NoYtDlp);
        return;
      }
      inProgress, cancelRequested, startedAt := true, false, now;
      cur, total, heading := 0, |playlist|, Starting;
      Say(Downloading(|playlist|, dest));
    }

    /** Enter in the prompt: the prompt is hidden and the typed folder,
        stripped, is handed to `Kickoff`; an empty one is reported. Submitting
        without the prompt does nothing. */
    method SubmitDownloadPath(value: string, playlist: seq<Track>, mkdirError: Option<string>, hasYtDlp: bool, home: string, now: int)
      requires Valid()
      modifies this
      ensures Valid()
      ensures old(promptActive) && Strip(value) != [] && mkdirError.None? && (hasYtDlp || forall t :: t in playlist ==> t.source == Local) ==>
        && State() == old(State()).(promptActive := false, inProgress := true, cancelRequested := false, startedAt := now,
                                    cur := 0, total := |playlist|, heading := Starting)
        && log == old(log) + [Said(Downloading(|playlist|, Paths.DestFolder(Strip(value), home)))]
      ensures old(promptActive) && Strip(value) != [] && mkdirError.Some? ==>
        State() == old(State()).(promptActive := false) && log == old(log) + [Said(InvalidFolder(mkdirError.value))]
      ensures old(promptActive) && Strip(value) != [] && mkdirError.None? && !hasYtDlp && (exists t :: t in playlist && t.source == YouTube) ==>
        State() == old(State()).(promptActive := false) && log == old(log) + [Said(NoYtDlp)]
      ensures old(promptActive) && Strip(value) == [] ==>
        State() == old(State()).(promptActive := false) && log == old(log) + [Said(EmptyPath)]
      ensures !old(promptActive) ==> State() == old(State()) && log == old(log)
    {
      if !promptActive {
        return;
      }
      var folder := Strip(value);
      HidePrompt(false);
      ghost var hidden, log1 := State(), log;
      assert hidden == old(State()).(promptActive := false) && log1 == old(log);
      if folder != [] {
        Kickoff(folder, playlist, mkdirError, hasYtDlp, home, now);
      } else {
        Say(EmptyPath);
      }
    }

    /** `action_cancel_download`: without a running download it only says so;
        otherwise it raises the flag the loop checks and sends SIGTERM to a
        live tool process (`_cancel_download_kill_proc`). */
    method CancelDownload(alive: bool)
      requires Valid()
      modifies this
      ensures Valid()
      ensures !old(inProgress) ==> State() == old(State()) && log == old(log) + [Said(NoDownload)]
      ensures old(inProgress) ==>
        State() == old(State()).(cancelRequested := true) && log == old(log) + CancelEvents(old(proc), alive)
    {
      if !inProgress {
        Say(NoDownload);
        return;
      }
      cancelRequested := true;
      Say(Cancelling);
      if proc.Some? && alive {
        log := log + [Sent(proc.value, Session.SigTerm)];
      }
    }

    /** `run_popen`: the tool runs as the download's process until it ends or
        the cancel request arrives (during the run when `cancelNow`). */
    method RunTool(cmd: seq<string>, w: ItemWorld, cancelNow: bool) returns (rc: int, error: Option<string>)
      requires Valid() && inProgress && !cancelRequested && proc.None?
      modifies this
      ensures Valid()
      ensures |old(log)| <= |log| && log[..|old(log)|] == old(log)
      ensures ToolRun(log[|old(log)|..], rc, error) == ToolSteps(cmd, w, cancelNow)
      ensures State() == old(State()).(cancelRequested := cancelNow && w.spawned.Ok?)
    {
      ghost var before := log;
      match w.spawned {
        case Err(e) =>
          rc, error := 0, Some(e);
        case Ok(p) =>
          proc := Some(p);
          log := log + [Ran(cmd)];
          if cancelNow {
            CancelDownload(w.alive);
          }
          if cancelRequested && w.alive && !w.diesOnTerm {
            log := log + [Sent(p, Session.SigTerm)];
            rc := 999;
          } else {
            rc := w.exitCode;
          }
          error := None;
          proc := None;
      }
      assert log == before + log[|before|..];
    }

    /** The yt-dlp pass of a remote item. */
    method DownloadRemote(cmd: seq<string>, shown: string, w: ItemWorld, cancelNow: bool) returns (end: End)
      requires Valid() && inProgress && !cancelRequested && proc.None?
      modifies this
      ensures Valid()
      ensures log == old(log) + RemoteItem(cmd, shown, w, cancelNow).events
      ensures end == RemoteItem(cmd, shown, w, cancelNow).end
      ensures State() == old(State()).(cancelRequested := cancelNow && w.spawned.Ok?)
    {
      ghost var before := log;
      var rc, error := RunTool(cmd, w, cancelNow);
      assert log == before + log[|before|..];
      if error.Some? {
        end := Abort(error.value);
      } else if cancelRequested {
        end := Break;
      } else {
        if rc != 0 {
          Say(YtDlpFailed(shown, rc));
        }
        end := Next;
      }
    }

    /** The cancel request arriving while an item that starts no tool is handled. */
    method LateCancelAt(cancelNow: bool)
      requires Valid() && inProgress && !cancelRequested && proc.None?
      modifies this
      ensures Valid()
      ensures log == old(log) + LateCancel(cancelNow)
      ensures State() == old(State()).(cancelRequested := cancelNow)
    {
      if cancelNow {
        CancelDownload(false);
      }
    }

    /** The ffmpeg pass of a local file that is not an mp3. */
    method Convert(cmd: seq<string>, name: string, w: ItemWorld, cancelNow: bool) returns (end: End)
      requires Valid() && inProgress && !cancelRequested && proc.None?
      modifies this
      ensures Valid()
      ensures log == old(log) + LocalConvert(cmd, name, w, cancelNow).events
      ensures end == LocalConvert(cmd, name, w, cancelNow).end
      ensures State() == old(State()).(cancelRequested := cancelNow && w.spawned.Ok?)
    {
      ghost var before := log;
      var rc, error := RunTool(cmd, w, cancelNow);
      assert log == before + log[|before|..];
      if error.Some? {
        end := Abort(error.value);
      } else if cancelRequested {
        end := Break;
      } else {
        if rc != 0 {
          Say(ConvertFailed(name, rc));
        }
        end := Next;
      }
    }

    /** The copy, conversion or report for a local item. */
    method DownloadLocal(src: string, name: string, mp3: bool, dst: string, convert: seq<string>, w: ItemWorld, cancelNow: bool)
      returns (end: End)
      requires Valid() && inProgress && !cancelRequested && proc.None?
      modifies this
      ensures Valid()
      ensures log == old(log) + LocalItem(src, name, mp3, dst, convert, w, cancelNow).events
      ensures end == LocalItem(src, name, mp3, dst, convert, w, cancelNow).end
      ensures State() == old(State()).(cancelRequested := cancelNow && (w.present && !mp3 && w.hasFfmpeg ==> w.spawned.Ok?))
    {
      if !w.present {
        Say(MissingFile(src));
        LateCancelAt(cancelNow);
        return Next;
      }
      if mp3 {
        log := log + [Copy(src, dst)];
        LateCancelAt(cancelNow);
        if w.copyError.Some? {
          Say(CopyFailed(name, w.copyError.value));
        }
        return Next;
      }
      if !w.hasFfmpeg {
        Say(NoFfmpeg(name));
        LateCancelAt(cancelNow);
        return Next;
      }
      end := Convert(convert, name, w, cancelNow);
    }

    /** The pass of item `i` after its progress fields are set. */
    method DownloadBody(i: nat, t: Track, w: ItemWorld, cancelNow: bool, dest: string) returns (end: End)
      requires Valid() && inProgress && !cancelRequested && proc.None?
      modifies this
      ensures Valid() && inProgress && proc.None?
      ensures log == old(log) + ItemBody(i, t, w, cancelNow, dest).events
      ensures end == ItemBody(i, t, w, cancelNow, dest).end
      ensures State() == old(State()).(cancelRequested := cancelRequested)
      ensures !end.Abort? ==> cancelRequested == cancelNow
      ensures end == Break ==> cancelNow
    {
      if t.source == YouTube {
        end := DownloadRemote(YtDlpCommand(RemoteTarget(dest, i, t), t.uri), RemoteTitle(t), w, cancelNow);
      } else {
        var src := t.uri;
        var outMp3 := LocalTarget(dest, i, src);
        end := DownloadLocal(src, Paths.Name(src), IsMp3(src), outMp3, FfmpegCommand(src, outMp3), w, cancelNow);
      }
    }

    /** One pass of the loop body: the progress fields show item `i` of `n`, then the item is processed. */
    method DownloadItem(i: nat, n: nat, t: Track, w: ItemWorld, cancelNow: bool, dest: string) returns (end: End)
      requires Valid() && inProgress && !cancelRequested && proc.None?
      modifies this
      ensures Valid() && inProgress && proc.None?
      ensures log == old(log) + ItemSteps(i, n, t, w, cancelNow, dest).events
      ensures end == ItemSteps(i, n, t, w, cancelNow, dest).end
      ensures cur == i && heading == Item(i, n, t)
      ensures promptActive == old(promptActive) && startedAt == old(startedAt) && total == old(total)
      ensures !end.Abort? ==> cancelRequested == cancelNow
      ensures end == Break ==> cancelNow
    {
      ghost var log0 := log;
      cur, heading := i, Item(i, n, t);
      log := log + [Working(i, n, t)];
      end := DownloadBody(i, t, w, cancelNow, dest);
      Assoc(log0, [Working(i, n, t)], ItemBody(i, t, w, cancelNow, dest).events);
    }

    /** Item `i`'s pass, as `runs` has it. */
    method Pass(items: seq<Track>, world: seq<ItemWorld>, cancelAt: Option<nat>, dest: string, i: nat, ghost runs: seq<ItemRun>)
      returns (end: End)
      requires Planned(runs, items, world, cancelAt, dest) && 1 <= i <= |items|
      requires Valid() && inProgress && !cancelRequested && proc.None?
      modifies this
      ensures Valid() && inProgress && proc.None?
      ensures promptActive == old(promptActive) && startedAt == old(startedAt) && total == old(total)
      ensures log == old(log) + runs[i - 1].events && end == runs[i - 1].end
      ensures !end.Abort? ==> cancelRequested == (cancelAt == Some(i))
      ensures end == Break ==> cancelAt == Some(i)
    {
      end := DownloadItem(i, |items|, items[i - 1], world[i - 1], cancelAt == Some(i), dest);
      assert runs[i - 1] == ItemSteps(i, |items|, items[i - 1], world[i - 1], cancelAt == Some(i), dest);
    }

    /** One turn of the `for` loop at item `i`: the cancel check, then the
        item's pass. `acc` is what the loop has logged so far and `whole` the
        loop's outcome; `done` says the loop stops here. */
    method Turn(items: seq<Track>, world: seq<ItemWorld>, cancelAt: Option<nat>, dest: string, i: nat,
                ghost runs: seq<ItemRun>, ghost whole: Outcome, ghost log0: seq<Event>, ghost acc: seq<Event>)
      returns (done: bool, failure: Option<string>, ghost acc': seq<Event>)
      requires Planned(runs, items, world, cancelAt, dest) && 1 <= i <= |items|
      requires Valid() && inProgress && proc.None?
      requires log == log0 + acc && cancelRequested == ArrivedBy(cancelAt, i - 1)
      requires whole.events == acc + Loop(runs, cancelAt, i).events && whole.exit == Loop(runs, cancelAt, i).exit
      modifies this
      ensures Valid() && inProgress && proc.None?
      ensures promptActive == old(promptActive) && startedAt == old(startedAt) && total == old(total)
      ensures log == log0 + acc'
      ensures !done ==> cancelRequested == ArrivedBy(cancelAt, i) && failure.None?
      ensures !done ==> whole.events == acc' + Loop(runs, cancelAt, i + 1).events && whole.exit == Loop(runs, cancelAt, i + 1).exit
      ensures done ==> whole.events == acc'
      ensures done ==> whole.exit == if failure.Some? then Failed(failure.value) else Cancelled
      ensures done && failure.None? ==> cancelRequested
    {
      failure := None;
      if cancelRequested {
        LoopStop(runs, cancelAt, i);
        done, acc' := true, acc;
        assert acc + [] == acc;
      } else {
        LoopStep(runs, cancelAt, i);
        var end := Pass(items, world, cancelAt, dest, i, runs);
        Assoc(log0, acc, runs[i - 1].events);
        if end == Next {
          Assoc(acc, runs[i - 1].events, Loop(runs, cancelAt, i + 1).events);
        }
        acc' := acc + runs[i - 1].events;
        match end {
          case Next =>
            assert cancelRequested == ArrivedBy(cancelAt, i);
            done := false;
          case Break =>
            done := true;
          case Abort(e) =>
            failure := Some(e);
            done := true;
        }
      }
    }

    /** The `for` loop of the download task: before each item the cancel flag
        is checked, and an item's pass decides whether the loop goes on. It
        returns the exception that ended it, if one did. */
    method WorkThrough(items: seq<Track>, world: seq<ItemWorld>, cancelAt: Option<nat>, dest: string, ghost runs: seq<ItemRun>)
      returns (failure: Option<string>)
      requires Valid() && inProgress && proc.None? && Planned(runs, items, world, cancelAt, dest)
      requires cancelRequested == ArrivedBy(cancelAt, 0)
      modifies this
      ensures Valid() && inProgress && proc.None?
      ensures promptActive == old(promptActive) && startedAt == old(startedAt) && total == old(total)
      ensures log == old(log) + Loop(runs, cancelAt, 1).events
      ensures Loop(runs, cancelAt, 1).exit
           == if failure.Some? then Failed(failure.value) else if cancelRequested then Cancelled else Finished
    {
      ghost var whole := Loop(runs, cancelAt, 1);
      ghost var log0 := log;
      ghost var acc: seq<Event> := [];
      var i := 1;
      var done := false;
      failure := None;
      while i <= |items| && !done
        invariant 1 <= i <= |items| + 1
        invariant Valid() && inProgress && proc.None?
        invariant promptActive == old(promptActive) && startedAt == old(startedAt) && total == old(total)
        invariant log == log0 + acc
        invariant !done ==> cancelRequested == ArrivedBy(cancelAt, i - 1) && failure.None?
        invariant !done ==> whole.events == acc + Loop(runs, cancelAt, i).events && whole.exit == Loop(runs, cancelAt, i).exit
        invariant done ==> whole.events == acc
        invariant done ==> whole.exit == if failure.Some? then Failed(failure.value) else Cancelled
        invariant done && failure.None? ==> cancelRequested
        decreases |items| + 1 - i, !done
      {
        done, failure, acc := Turn(items, world, cancelAt, dest, i, runs, whole, log0, acc);
        if !done {
          i := i + 1;
        }
      }
      if !done {
        LoopStop(runs, cancelAt, i);
        assert acc + [] == acc;
      }
    }

    /** The `finally` block of the download task. */
    method Finish()
      modifies this
      ensures Valid() && Reset(State(), old(State()))
      ensures log == old(log) && status == old(status)
    {
      inProgress, cancelRequested, cur, total, heading, proc := false, false, 0, 0, Blank, None;
    }

    /** `_download_playlist_items_async` over the snapshot `items`, with the
        cancel request arriving before item 1 (`Some(0)`), during item `k`
        (`Some(k)`) or not at all, and the tools' outcomes in `world`. It
        does exactly what `DownloadEvents` describes and always ends with the
        reset of its `finally` block. */
    method RunDownload(items: seq<Track>, world: seq<ItemWorld>, cancelAt: Option<nat>, dest: string)
      requires Valid() && inProgress && !cancelRequested && proc.None?
      requires |world| == |items|
      modifies this
      ensures Valid() && Reset(State(), old(State()))
      ensures log == old(log) + DownloadEvents(items, world, cancelAt, dest)
      ensures status == Some(ExitNote(Steps(items, world, cancelAt, dest).exit))
    {
      ghost var log0 := log;
      ghost var pre: seq<Event> := if cancelAt == Some(0) then CancelEvents(None, false) else [];
      if cancelAt == Some(0) {
        CancelDownload(false);
      }
      assert log == log0 + pre;
      RunsPlanned(items, world, cancelAt, dest);
      var failure := WorkThrough(items, world, cancelAt, dest, Runs(items, world, cancelAt, dest));
      ghost var o := Steps(items, world, cancelAt, dest);
      ghost var last := log;
      var note := if failure.Some? then DownloadFailed(failure.value) else if cancelRequested then DownloadCancelled else DownloadFinished;
      assert note == ExitNote(o.exit);
      Say(note);
      Assoc(log0, pre, o.events);
      Assoc(log0, pre + o.events, [Said(note)]);
      Finish();
    }
  }
}
