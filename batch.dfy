/** What one run of the playlist download loop does, as a pure function of
    the playlist snapshot, the outcomes of the external tools and the moment a
    cancel request arrives. The `Download` module's loop is proved to do
    exactly this; the lemmas here state what it guarantees. */
module Batch {
  import opened Wrappers
  import opened Text
  import opened Tracks
  import opened Paths
  import Session

  /** The messages of the download feature on the status line. */
  datatype Note =
    | AlreadyRunning | PlaylistEmpty | AskFolder | EmptyPath
    | InvalidFolder(reason: string) | NoYtDlp | Downloading(count: nat, dest: string)
    | NoDownload | Cancelling
    | YtDlpFailed(title: string, rc: int) | MissingFile(path: string)
    | CopyFailed(name: string, reason: string) | NoFfmpeg(name: string)
    | ConvertFailed(name: string, rc: int)
    | DownloadCancelled | DownloadFinished | DownloadFailed(reason: string)

  /** The text each message puts on the status line. */
  function Message(n: Note): string {
    match n
    case AlreadyRunning => "Download already running (press c to cancel)."
    case PlaylistEmpty => "Playlist empty."
    case AskFolder => "Type a download folder and press Enter. Esc cancels."
    case EmptyPath => "Download cancelled (empty path)."
    case InvalidFolder(e) => "Invalid folder: " + e
    case NoYtDlp => "yt-dlp not found."
    case Downloading(k, dest) => "Downloading " + IntToString(k) + " items to: " + dest + " (press c to cancel)"
    case NoDownload => "No download running."
    case Cancelling => "Cancelling download\U{2026}"
    case YtDlpFailed(title, rc) => "Failed: " + title + " (yt-dlp exit " + IntToString(rc) + ")"
    case MissingFile(path) => "Missing file: " + path
    case CopyFailed(name, e) => "Copy failed: " + name + " (" + e + ")"
    case NoFfmpeg(name) => "ffmpeg not found (can't convert): " + name
    case ConvertFailed(name, rc) => "Convert failed: " + name + " (ffmpeg exit " + IntToString(rc) + ")"
    case DownloadCancelled => "Download cancelled."
    case DownloadFinished => "Download finished."
    case DownloadFailed(e) => "Download failed: " + e
  }

  /** The outcomes of the external calls made for one playlist item. */
  datatype ItemWorld = ItemWorld(
    spawned: Result<Session.Proc>,  // starting yt-dlp or ffmpeg, or the exception raised
    exitCode: int,                  // the tool's exit status when it ends by itself
    alive: bool,                    // the tool is still running when a cancel request arrives
    diesOnTerm: bool,               // it has exited by the next poll after that request's SIGTERM
    present: bool,                  // the local file exists
    copyError: Option<string>,      // the exception of copying an mp3, if any
    hasFfmpeg: bool)                // ffmpeg is on the search path

  /** What the loop does that can be observed: the progress fields being set,
      status messages, tools started, files copied and signals sent. */
  datatype Event =
    | Working(cur: nat, of: nat, item: Track)
    | Said(note: Note)
    | Ran(cmd: seq<string>)
    | Copy(src: string, dst: string)
    | Sent(proc: Session.Proc, sig: Session.Sig)

  /** `f"{i:03d}"`. */
  function Num(i: nat): (r: string)
    ensures |r| >= 3 && AllDigits(r) && DigitsValue(r) == i
    ensures |r| == if |Decimal(i)| < 3 then 3 else |Decimal(i)|
    ensures i < 1000 ==> |r| == 3
  {
    ZeroPad(i, 3)
  }

  /** `_download_title` while item `i` of `n` is processed. */
  function DownloadTitle(i: nat, n: nat, t: Track): string {
    Num(i) + "/" + Num(n) + "  " + TitleFromLabel(t.caption)
  }

  /** What the progress line names: nothing, the placeholder shown before the
      loop starts, or item `cur` of `of`. */
  datatype Heading = Blank | Starting | Item(cur: nat, of: nat, track: Track)

  /** The `_download_title` string of a heading. */
  function Render(h: Heading): (r: string)
    ensures r == [] <==> h.Blank?
  {
    match h
    case Blank => []
    case Starting => "Starting\U{2026}"
    case Item(i, n, t) => DownloadTitle(i, n, t)
  }

  /** How many decimal digits `s` starts with. */
  function DigitRun(s: string): (r: nat)
    ensures r <= |s|
  {
    if s == [] || !IsDigit(s[0]) then 0 else 1 + DigitRun(s[1..])
  }

  lemma {:induction false} DigitRunOf(a: string, c: char, x: string)
    requires AllDigits(a) && !IsDigit(c)
    ensures DigitRun(a + [c] + x) == |a|
    decreases |a|
  {
    var s := a + [c] + x;
    if a == [] {
      assert s[0] == c;
    } else {
      assert IsDigit(a[0]) && s[0] == a[0];
      assert s[1..] == a[1..] + [c] + x;
      assert AllDigits(a[1..]) by {
        forall k | 0 <= k < |a[1..]| ensures IsDigit(a[1..][k]) {
          assert a[1..][k] == a[k + 1];
        }
      }
      DigitRunOf(a[1..], c, x);
    }
  }

  /** A digit string followed by a non-digit separator can be read back off
      the front of the whole. */
  lemma DigitsBeforeSeparator(a: string, x: string, b: string, y: string, c: char)
    requires AllDigits(a) && AllDigits(b) && !IsDigit(c)
    requires a + [c] + x == b + [c] + y
    ensures a == b && x == y
  {
    var s := a + [c] + x;
    DigitRunOf(a, c, x);
    DigitRunOf(b, c, y);
    assert a == s[..|a|] == b;
    assert x == s[|a| + 1..] == y;
  }

  // A sequence identity stated on its own so that the proofs using it stay small.
  lemma TitleShape(p: string, q: string, r: string)
    ensures p + "/" + q + "  " + r == p + ['/'] + (q + [' '] + (" " + r))
  {
  }

  /** The progress line tells which item of how many is being processed. */
  lemma ItemHeadingNamesPosition(i: nat, n: nat, t: Track, j: nat, m: nat, u: Track)
    requires Render(Item(i, n, t)) == Render(Item(j, m, u))
    ensures i == j && n == m
  {
    var r1, r2 := TitleFromLabel(t.caption), TitleFromLabel(u.caption);
    TitleShape(Num(i), Num(n), r1);
    TitleShape(Num(j), Num(m), r2);
    DigitsBeforeSeparator(Num(i), Num(n) + [' '] + (" " + r1), Num(j), Num(m) + [' '] + (" " + r2), '/');
    DigitsBeforeSeparator(Num(n), " " + r1, Num(m), " " + r2, ' ');
  }

  function YtDlpCommand(outTemplate: string, url: string): seq<string> {
    ["yt-dlp", "--no-playlist", "-x", "--audio-format", "mp3", "--audio-quality", "0", "-o", outTemplate, url]
  }

  function FfmpegCommand(src: string, out: string): seq<string> {
    ["ffmpeg", "-y", "-i", src, "-vn", "-codec:a", "libmp3lame", "-q:a", "0", out]
  }

  /** The valid-filename title of a remote item. */
  function RemoteTitle(t: Track): string {
    SafeFilename(TitleFromLabel(t.caption), 140)
  }

  /** yt-dlp's output template for remote item `i`. */
  function RemoteTarget(dest: string, i: nat, t: Track): string {
    Join(dest, Num(i) + " - " + RemoteTitle(t) + ".%(ext)s")
  }

  /** The mp3 file written for local item `i`. */
  function LocalTarget(dest: string, i: nat, src: string): string {
    Join(dest, Num(i) + " - " + SafeFilename(Stem(Name(src)), 140) + ".mp3")
  }

  predicate IsMp3(src: string) {
    Lower(Suffix(Name(src))) == ".mp3"
  }

  /** No event sets the progress fields. */
  predicate Quiet(evs: seq<Event>) {
    forall e :: e in evs ==> !e.Working?
  }

  /** Every signal sent is SIGTERM. */
  predicate OnlyTerm(evs: seq<Event>) {
    forall e :: e in evs && e.Sent? ==> e.sig == Session.SigTerm
  }

  /** The cancel request as `action_cancel_download` handles it while a
      download runs: the flag is set, the status says so, and a live tool
      process gets SIGTERM. */
  function CancelEvents(proc: Option<Session.Proc>, alive: bool): (r: seq<Event>)
    ensures Quiet(r) && OnlyTerm(r)
    ensures |r| == (if proc.Some? && alive then 2 else 1)
    ensures r[0] == Said(Cancelling)
    ensures proc.Some? ==> (alive <==> Sent(proc.value, Session.SigTerm) in r)
  {
    [Said(Cancelling)] + (if proc.Some? && alive then [Sent(proc.value, Session.SigTerm)] else [])
  }

  /** The result of `run_popen`: what happened, the return code, or the
      exception that starting the tool raised. */
  datatype ToolRun = ToolRun(events: seq<Event>, rc: int, error: Option<string>)

  /** `run_popen(cmd)`, with a cancel request arriving during the run when
      `cancelNow` holds: the first poll after the request sends SIGTERM, and
      a process still alive at the next poll gets a second SIGTERM and code 999. */
  function ToolSteps(cmd: seq<string>, w: ItemWorld, cancelNow: bool): (r: ToolRun)
    ensures r.error.Some? <==> w.spawned.Err?
    ensures r.error.Some? ==> r.error.value == w.spawned.error && r.events == []
    ensures r.error.None? ==> (r.rc == 999 <==> (cancelNow && w.alive && !w.diesOnTerm) || w.exitCode == 999)
    ensures r.error.None? && !(cancelNow && w.alive && !w.diesOnTerm) ==> r.rc == w.exitCode
    ensures r.error.None? ==> r.events != [] && r.events[0] == Ran(cmd)
    ensures Quiet(r.events) && OnlyTerm(r.events)
  {
    match w.spawned
    case Err(e) => ToolRun([], 0, Some(e))
    case Ok(p) =>
      if !cancelNow then ToolRun([Ran(cmd)], w.exitCode, None)
      else if w.alive && !w.diesOnTerm then
        ToolRun([Ran(cmd)] + CancelEvents(Some(p), w.alive) + [Sent(p, Session.SigTerm)], 999, None)
      else
        ToolRun([Ran(cmd)] + CancelEvents(Some(p), w.alive), w.exitCode, None)
  }

  /** How processing one item ends: on to the next one, out of the loop after
      a cancel request, or out of it with an exception. */
  datatype End = Next | Break | Abort(error: string)

  datatype ItemRun = ItemRun(events: seq<Event>, end: End)

  /** What the loop is promised of one item's work: it never touches the
      progress fields or sends anything but SIGTERM; it leaves the loop only
      for a cancel request during it or for the exception of starting its
      tool; and a failure of its own never stops the loop. */
  predicate Contained(w: ItemWorld, cancelNow: bool, r: ItemRun) {
    && Quiet(r.events) && OnlyTerm(r.events)
    && (r.end == Break ==> cancelNow)
    && (r.end.Abort? ==> w.spawned == Err(r.end.error))
    && (!cancelNow && w.spawned.Ok? ==> r.end == Next)
  }

  /** The rest of an item that ran a tool: the exception of starting it ends
      the loop, a cancel request ends it after the tool, and otherwise a
      non-zero code is reported and the loop goes on. */
  function AfterTool(run: ToolRun, w: ItemWorld, cancelNow: bool, complaint: seq<Event>): (r: ItemRun)
    requires run.error.Some? <==> w.spawned.Err?
    requires run.error.Some? ==> run.error.value == w.spawned.error && run.events == []
    requires Quiet(run.events) && OnlyTerm(run.events) && Quiet(complaint) && OnlyTerm(complaint)
    ensures Contained(w, cancelNow, r)
  {
    if run.error.Some? then ItemRun([], Abort(run.error.value))
    else if cancelNow then ItemRun(run.events, Break)
    else ItemRun(run.events + complaint, Next)
  }

  /** The cancel request arriving during an item that starts no tool, seen
      once that item's own work is done. */
  function LateCancel(cancelNow: bool): (r: seq<Event>)
    ensures Quiet(r) && OnlyTerm(r)
  {
    if cancelNow then CancelEvents(None, false) else []
  }

  /** An item that starts no tool: whatever happened to it, the loop goes on. */
  function Reported(evs: seq<Event>, w: ItemWorld, cancelNow: bool): (r: ItemRun)
    requires Quiet(evs) && OnlyTerm(evs)
    ensures Contained(w, cancelNow, r)
  {
    ItemRun(evs, Next)
  }

  /** A remote item: yt-dlp runs `cmd` to extract the audio as mp3; a
      failure is reported under the item's file-name title `shown`. */
  function RemoteItem(cmd: seq<string>, shown: string, w: ItemWorld, cancelNow: bool): (r: ItemRun)
    ensures Contained(w, cancelNow, r)
  {
    var run := ToolSteps(cmd, w, cancelNow);
    AfterTool(run, w, cancelNow, if run.rc != 0 then [Said(YtDlpFailed(shown, run.rc))] else [])
  }

  /** A local mp3 is copied to `dst` as it is. */
  function LocalCopy(src: string, name: string, dst: string, w: ItemWorld, cancelNow: bool): (r: ItemRun)
    ensures Contained(w, cancelNow, r)
  {
    var copied := [Copy(src, dst)] + LateCancel(cancelNow);
    Reported(copied + (if w.copyError.Some? then [Said(CopyFailed(name, w.copyError.value))] else []), w, cancelNow)
  }

  /** Any other local file is converted to mp3 by ffmpeg running `cmd`. */
  function LocalConvert(cmd: seq<string>, name: string, w: ItemWorld, cancelNow: bool): (r: ItemRun)
    ensures Contained(w, cancelNow, r)
  {
    var run := ToolSteps(cmd, w, cancelNow);
    AfterTool(run, w, cancelNow, if run.rc != 0 then [Said(ConvertFailed(name, run.rc))] else [])
  }

  /** A local item at path `src`, whose final component is `name`: a missing
      file is reported, an mp3 (`mp3`) copied to `dst`, anything else
      converted by `convert` if there is an ffmpeg. */
  function LocalItem(src: string, name: string, mp3: bool, dst: string, convert: seq<string>, w: ItemWorld, cancelNow: bool): (r: ItemRun)
    ensures Contained(w, cancelNow, r)
  {
    if !w.present then Reported([Said(MissingFile(src))] + LateCancel(cancelNow), w, cancelNow)
    else if mp3 then LocalCopy(src, name, dst, w, cancelNow)
    else if !w.hasFfmpeg then Reported([Said(NoFfmpeg(name))] + LateCancel(cancelNow), w, cancelNow)
    else LocalConvert(convert, name, w, cancelNow)
  }

  /** The pass of item `i` after its progress fields are set. */
  function ItemBody(i: nat, t: Track, w: ItemWorld, cancelNow: bool, dest: string): (r: ItemRun)
    ensures Contained(w, cancelNow, r)
  {
    if t.source == YouTube then
      RemoteItem(YtDlpCommand(RemoteTarget(dest, i, t), t.uri), RemoteTitle(t), w, cancelNow)
    else
      var dst := LocalTarget(dest, i, t.uri);
      LocalItem(t.uri, Name(t.uri), IsMp3(t.uri), dst, FfmpegCommand(t.uri, dst), w, cancelNow)
  }

  /** One pass of the loop body for item `i` (counted from 1) of `n`: the
      progress fields are set first, then the item is processed. */
  function ItemSteps(i: nat, n: nat, t: Track, w: ItemWorld, cancelNow: bool, dest: string): ItemRun {
    var body := ItemBody(i, t, w, cancelNow, dest);
    ItemRun([Working(i, n, t)] + body.events, body.end)
  }

  /** Whether the cancel request has arrived by the end of item `k` (0: before the first). */
  predicate ArrivedBy(cancelAt: Option<nat>, k: nat) {
    cancelAt.Some? && cancelAt.value <= k
  }

  datatype Exit = Finished | Cancelled | Failed(error: string)

  datatype Outcome = Outcome(events: seq<Event>, exit: Exit)

  /** The loop from item `i` on, over what each item's pass does: the cancel
      flag is checked before each item, and an item's end decides whether the
      loop goes on. */
  function Loop(runs: seq<ItemRun>, cancelAt: Option<nat>, i: nat): Outcome
    requires 1 <= i <= |runs| + 1
    decreases |runs| + 1 - i
  {
    if i > |runs| then Outcome([], if ArrivedBy(cancelAt, |runs|) then Cancelled else Finished)
    else if ArrivedBy(cancelAt, i - 1) then Outcome([], Cancelled)
    else
      match runs[i - 1].end
      case Next =>
        var rest := Loop(runs, cancelAt, i + 1);
        Outcome(runs[i - 1].events + rest.events, rest.exit)
      case Break => Outcome(runs[i - 1].events, Cancelled)
      case Abort(e) => Outcome(runs[i - 1].events, Failed(e))
  }

  /** One turn of the loop: where item `i`'s pass leaves it. */
  lemma LoopStep(runs: seq<ItemRun>, cancelAt: Option<nat>, i: nat)
    requires 1 <= i <= |runs| && !ArrivedBy(cancelAt, i - 1)
    ensures runs[i - 1].end == Next ==>
      && Loop(runs, cancelAt, i).events == runs[i - 1].events + Loop(runs, cancelAt, i + 1).events
      && Loop(runs, cancelAt, i).exit == Loop(runs, cancelAt, i + 1).exit
    ensures runs[i - 1].end == Break ==> Loop(runs, cancelAt, i) == Outcome(runs[i - 1].events, Cancelled)
    ensures runs[i - 1].end.Abort? ==> Loop(runs, cancelAt, i) == Outcome(runs[i - 1].events, Failed(runs[i - 1].end.error))
  {
  }

  /** The loop stops at the top check once the request has arrived, and after the last item. */
  lemma LoopStop(runs: seq<ItemRun>, cancelAt: Option<nat>, i: nat)
    requires 1 <= i <= |runs| + 1 && (i > |runs| || ArrivedBy(cancelAt, i - 1))
    ensures Loop(runs, cancelAt, i).events == []
    ensures Loop(runs, cancelAt, i).exit == if ArrivedBy(cancelAt, i - 1) then Cancelled else Finished
  {
  }

  /** The pass each item would make, the cancel request arriving during item `cancelAt`. */
  function Runs(items: seq<Track>, world: seq<ItemWorld>, cancelAt: Option<nat>, dest: string): (r: seq<ItemRun>)
    requires |world| == |items|
    ensures |r| == |items|
    ensures forall k :: 0 <= k < |items| ==>
      r[k] == ItemSteps(k + 1, |items|, items[k], world[k], cancelAt == Some(k + 1), dest)
  {
    seq(|items|, k requires 0 <= k < |items| => ItemSteps(k + 1, |items|, items[k], world[k], cancelAt == Some(k + 1), dest))
  }

  /** `runs` are the passes of `items`, item by item. */
  predicate Planned(runs: seq<ItemRun>, items: seq<Track>, world: seq<ItemWorld>, cancelAt: Option<nat>, dest: string) {
    && |runs| == |items| == |world|
    && forall k {:trigger items[k]} :: 0 <= k < |items| ==>
         runs[k] == ItemSteps(k + 1, |items|, items[k], world[k], cancelAt == Some(k + 1), dest)
  }

  lemma RunsPlanned(items: seq<Track>, world: seq<ItemWorld>, cancelAt: Option<nat>, dest: string)
    requires |world| == |items|
    ensures Planned(Runs(items, world, cancelAt, dest), items, world, cancelAt, dest)
  {
  }

  /** The whole loop of `_download_playlist_items_async` over the playlist snapshot. */
  function Steps(items: seq<Track>, world: seq<ItemWorld>, cancelAt: Option<nat>, dest: string): Outcome
    requires |world| == |items|
  {
    Loop(Runs(items, world, cancelAt, dest), cancelAt, 1)
  }

  /** The status the loop ends with. */
  function ExitNote(x: Exit): Note {
    match x
    case Finished => DownloadFinished
    case Cancelled => DownloadCancelled
    case Failed(e) => DownloadFailed(e)
  }

  /** Everything `_download_playlist_items_async` does, a cancel request that
      arrives before its first item included. */
  function DownloadEvents(items: seq<Track>, world: seq<ItemWorld>, cancelAt: Option<nat>, dest: string): seq<Event>
    requires |world| == |items|
  {
    var o := Steps(items, world, cancelAt, dest);
    (if cancelAt == Some(0) then CancelEvents(None, false) else []) + o.events + [Said(ExitNote(o.exit))]
  }

  // ---------- what the loop guarantees ----------

  /** The progress events, in order. */
  function Progress(evs: seq<Event>): (r: seq<Event>)
    ensures |r| <= |evs|
  {
    if evs == [] then []
    else (if evs[0].Working? then [evs[0]] else []) + Progress(evs[1..])
  }

  lemma {:induction false} ProgressAppend(a: seq<Event>, b: seq<Event>)
    ensures Progress(a + b) == Progress(a) + Progress(b)
  {
    if a == [] {
      assert a + b == b;
    } else {
      assert (a + b)[0] == a[0];
      assert (a + b)[1..] == a[1..] + b;
      ProgressAppend(a[1..], b);
    }
  }

  lemma {:induction false} QuietHasNoProgress(evs: seq<Event>)
    requires Quiet(evs)
    ensures Progress(evs) == []
  {
    if evs != [] {
      assert evs[0] in evs;
      assert Quiet(evs[1..]) by {
        forall e | e in evs[1..] ensures !e.Working? {
          assert e in evs;
        }
      }
      QuietHasNoProgress(evs[1..]);
    }
  }

  /** Each item sets the progress fields exactly once, to its own number and title. */
  lemma ItemProgress(i: nat, n: nat, t: Track, w: ItemWorld, cancelNow: bool, dest: string)
    ensures Progress(ItemSteps(i, n, t, w, cancelNow, dest).events) == [Working(i, n, t)]
  {
    var evs := ItemSteps(i, n, t, w, cancelNow, dest).events;
    assert evs == [evs[0]] + evs[1..];
    QuietHasNoProgress(evs[1..]);
    ProgressAppend([evs[0]], evs[1..]);
  }

  // A sequence identity stated on its own so that the proofs using it stay small.
  lemma Assoc(a: seq<Event>, b: seq<Event>, c: seq<Event>)
    ensures (a + b) + c == a + (b + c)
  {
  }

  // A sequence identity stated on its own so that the proofs using it stay small.
  lemma SliceCons(s: seq<Event>, a: nat, b: nat)
    requires a < b <= |s|
    ensures s[a..b] == [s[a]] + s[a + 1..b]
  {
  }

  /** When each pass sets the progress fields once, to `heads[k]`, the loop
      shows a gap-free stretch of `heads` starting at item `i`. */
  lemma {:induction false} LoopInOrder(runs: seq<ItemRun>, heads: seq<Event>, cancelAt: Option<nat>, i: nat)
    requires 1 <= i <= |runs| + 1 && |heads| == |runs|
    requires forall k :: 0 <= k < |runs| ==> Progress(runs[k].events) == [heads[k]]
    ensures i - 1 + |Progress(Loop(runs, cancelAt, i).events)| <= |runs|
    ensures Progress(Loop(runs, cancelAt, i).events)
         == heads[i - 1 .. i - 1 + |Progress(Loop(runs, cancelAt, i).events)|]
    decreases |runs| + 1 - i
  {
    if i <= |runs| && !ArrivedBy(cancelAt, i - 1) {
      var r := runs[i - 1];
      if r.end == Next {
        var rest := Loop(runs, cancelAt, i + 1);
        ProgressAppend(r.events, rest.events);
        LoopInOrder(runs, heads, cancelAt, i + 1);
        var m := |Progress(rest.events)|;
        assert Progress(Loop(runs, cancelAt, i).events) == [heads[i - 1]] + Progress(rest.events);
        SliceCons(heads, i - 1, i + m);
      } else {
        assert Progress(Loop(runs, cancelAt, i).events) == [heads[i - 1]];
        SliceCons(heads, i - 1, i);
      }
    }
  }

  /** When each pass sets the progress fields once, no pass after the one
      during which the cancel request arrives is started. */
  lemma {:induction false} LoopCancelStops(runs: seq<ItemRun>, c: nat, i: nat)
    requires 1 <= i <= |runs| + 1
    requires forall k :: 0 <= k < |runs| ==> |Progress(runs[k].events)| == 1
    ensures i + |Progress(Loop(runs, Some(c), i).events)| <= if c + 1 >= i then c + 1 else i
    decreases |runs| + 1 - i
  {
    if i <= |runs| && !ArrivedBy(Some(c), i - 1) {
      var r := runs[i - 1];
      if r.end == Next {
        ProgressAppend(r.events, Loop(runs, Some(c), i + 1).events);
        LoopCancelStops(runs, c, i + 1);
      }
    }
  }

  /** Without a cancel request, and with every pass going on to the next,
      every pass from `i` on is made and the loop finishes normally. */
  lemma {:induction false} LoopUndisturbed(runs: seq<ItemRun>, i: nat)
    requires 1 <= i <= |runs| + 1
    requires forall k :: 0 <= k < |runs| ==> |Progress(runs[k].events)| == 1 && runs[k].end == Next
    ensures |Progress(Loop(runs, None, i).events)| == |runs| + 1 - i
    ensures Loop(runs, None, i).exit == Finished
    decreases |runs| + 1 - i
  {
    if i <= |runs| {
      ProgressAppend(runs[i - 1].events, Loop(runs, None, i + 1).events);
      LoopUndisturbed(runs, i + 1);
    }
  }

  /** The loop ends "cancelled" only after the request, "finished" only
      without one, and "failed" only with some pass's exception. */
  lemma {:induction false} LoopExit(runs: seq<ItemRun>, cancelAt: Option<nat>, i: nat)
    requires 1 <= i <= |runs| + 1
    requires forall k :: 0 <= k < |runs| && runs[k].end == Break ==> cancelAt == Some(k + 1)
    ensures var x := Loop(runs, cancelAt, i).exit;
      && (x == Cancelled ==> ArrivedBy(cancelAt, |runs|))
      && (x == Finished ==> !ArrivedBy(cancelAt, |runs|))
      && (x.Failed? ==> exists k :: i - 1 <= k < |runs| && runs[k].end == Abort(x.error))
    decreases |runs| + 1 - i
  {
    if i <= |runs| && !ArrivedBy(cancelAt, i - 1) {
      if runs[i - 1].end == Next {
        LoopExit(runs, cancelAt, i + 1);
      }
    }
  }

  /** The loop sends only the signals its passes send. */
  lemma {:induction false} LoopOnlyTerm(runs: seq<ItemRun>, cancelAt: Option<nat>, i: nat)
    requires 1 <= i <= |runs| + 1
    requires forall k :: 0 <= k < |runs| ==> OnlyTerm(runs[k].events)
    ensures OnlyTerm(Loop(runs, cancelAt, i).events)
    decreases |runs| + 1 - i
  {
    if i <= |runs| && !ArrivedBy(cancelAt, i - 1) {
      if runs[i - 1].end == Next {
        LoopOnlyTerm(runs, cancelAt, i + 1);
      }
    }
  }

  // ---------- the same guarantees for the playlist download ----------

  /** What the progress fields show for item `k + 1` of the playlist. */
  function Heads(items: seq<Track>): (r: seq<Event>)
    ensures |r| == |items|
    ensures forall k :: 0 <= k < |items| ==> r[k] == Working(k + 1, |items|, items[k])
  {
    seq(|items|, k requires 0 <= k < |items| => Working(k + 1, |items|, items[k]))
  }

  lemma RunsProgress(items: seq<Track>, world: seq<ItemWorld>, cancelAt: Option<nat>, dest: string)
    requires |world| == |items|
    ensures forall k :: 0 <= k < |items| ==>
      Progress(Runs(items, world, cancelAt, dest)[k].events) == [Heads(items)[k]]
  {
    var runs := Runs(items, world, cancelAt, dest);
    forall k | 0 <= k < |items| ensures Progress(runs[k].events) == [Heads(items)[k]] {
      ItemProgress(k + 1, |items|, items[k], world[k], cancelAt == Some(k + 1), dest);
    }
  }

  /** Items are taken one after the other, in playlist order and without
      gaps from the first; each one's progress title carries its own number,
      the playlist length and its own title. */
  lemma InOrder(items: seq<Track>, world: seq<ItemWorld>, cancelAt: Option<nat>, dest: string)
    requires |world| == |items|
    ensures var p := Progress(Steps(items, world, cancelAt, dest).events);
      |p| <= |items| && p == Heads(items)[..|p|]
  {
    RunsProgress(items, world, cancelAt, dest);
    LoopInOrder(Runs(items, world, cancelAt, dest), Heads(items), cancelAt, 1);
  }

  /** No item after the one during which the cancel request arrives is
      started; a request before the first item starts none. */
  lemma CancelStops(items: seq<Track>, world: seq<ItemWorld>, c: nat, dest: string)
    requires |world| == |items|
    ensures |Progress(Steps(items, world, Some(c), dest).events)| <= c
  {
    RunsProgress(items, world, Some(c), dest);
    LoopCancelStops(Runs(items, world, Some(c), dest), c, 1);
  }

  /** Without a cancel request and with every tool starting, every item is
      processed and the run finishes normally, whatever the tools report and
      whichever files are missing. */
  lemma Undisturbed(items: seq<Track>, world: seq<ItemWorld>, dest: string)
    requires |world| == |items|
    requires forall k :: 0 <= k < |world| ==> world[k].spawned.Ok?
    ensures |Progress(Steps(items, world, None, dest).events)| == |items|
    ensures Steps(items, world, None, dest).exit == Finished
  {
    RunsProgress(items, world, None, dest);
    LoopUndisturbed(Runs(items, world, None, dest), 1);
  }

  /** The final message tells the truth: "cancelled" only after a cancel
      request, "finished" only without one, "failed" only with the exception
      of starting some item's tool. */
  lemma ExitReason(items: seq<Track>, world: seq<ItemWorld>, cancelAt: Option<nat>, dest: string)
    requires |world| == |items|
    ensures var x := Steps(items, world, cancelAt, dest).exit;
      && (x == Cancelled ==> ArrivedBy(cancelAt, |items|))
      && (x == Finished ==> !ArrivedBy(cancelAt, |items|))
      && (x.Failed? ==> exists k :: 0 <= k < |items| && world[k].spawned == Err(x.error))
  {
    var runs := Runs(items, world, cancelAt, dest);
    LoopExit(runs, cancelAt, 1);
    var x := Steps(items, world, cancelAt, dest).exit;
    if x.Failed? {
      var k :| 0 <= k < |runs| && runs[k].end == Abort(x.error);
      assert world[k].spawned == Err(x.error);
    }
  }

  /** The download's tool processes only ever get SIGTERM: there is no escalation to SIGKILL. */
  lemma OnlySigTerm(items: seq<Track>, world: seq<ItemWorld>, cancelAt: Option<nat>, dest: string)
    requires |world| == |items|
    ensures OnlyTerm(DownloadEvents(items, world, cancelAt, dest))
  {
    var runs := Runs(items, world, cancelAt, dest);
    forall k | 0 <= k < |runs| ensures OnlyTerm(runs[k].events) {
      assert runs[k].events == [runs[k].events[0]] + runs[k].events[1..];
    }
    LoopOnlyTerm(runs, cancelAt, 1);
  }
}
