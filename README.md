# Personal FM player core, modelled in Dafny

This project models the core of `Personalfm.py`, a terminal music player. The player:

- plays local audio files and YouTube playlist items through `mpv` or `ffplay`;
- keeps a playlist that can be shuffled;
- downloads the playlist as mp3 files with `yt-dlp` and `ffmpeg`.

The model covers four parts of it.

- **Helpers** (`Text`, `Tracks`, `Paths`):
  - `safe_filename`, `normalize_for_search`, `squash_spaces`, `fmt_mmss` over whole seconds, and `clamp`;
  - `title_from_label`, the search keys of a `Track`, and the `_apply_search` filter;
  - the parts of `pathlib` the download uses: a path's normal form and its printing, `expanduser`, `/`, `name`, `stem` and `suffix`.
- **Elapsed time** (`Timing`): `_current_elapsed` and the pause timers of `action_toggle_pause`, over an integer clock.
- **Playback session** (`Session`): class `Player` holds the session fields of `MusicTUI` and the playlist with its shuffle snapshot. Its methods are:
  - `_start_track`, `_stop_playback`, `action_stop` and `action_toggle_pause`;
  - `action_next_track`, `action_prev_track` and `_tick_progress`;
  - `action_add_to_playlist`, `action_remove_from_playlist` and `action_toggle_shuffle`;
  - the resets of `_load_youtube_playlist`.
- **Download** (`Batch`, `Download`):
  - `Batch` is a pure specification of what `_download_playlist_items_async` does for a given playlist snapshot, tool outcomes and moment of a cancel request.
  - Class `Downloader` holds the controller's fields. It runs the prompt, kickoff and cancel actions. Its loop method `RunDownload` is proved to produce exactly that specification.

Modelling choices:

- **Outside world.** Every call into the outside world is an input of the operation that makes it:
  - whether a child process is alive (`poll()`);
  - whether it exits within the wait after SIGTERM;
  - the stream URL yt-dlp resolves;
  - the process `Popen` starts, or the exception it raises;
  - the ffprobe duration;
  - the exit codes of yt-dlp and ffmpeg;
  - whether a file exists, whether a copy fails, whether ffmpeg is installed;
  - the home directory;
  - the current time.
- **Signals.** Signals and process starts are recorded in a ghost log (`Player.sent`, `Downloader.log`). The contracts state exactly what is sent.
- **Shuffle.** `random.shuffle` is modelled as the Fisher-Yates algorithm CPython runs, with the random draws as an input. `Shuffling.EveryOrderReachable` proves that every permutation is produced by some draws.

In these places the model follows the code as written:

- Cancelling a download sends SIGTERM only (`Personalfm.py:819-828`, `Personalfm.py:870-882`). Only playback stop escalates to SIGKILL (`Personalfm.py:1023-1028`).
- A finished download reports only "Download finished." or "Download cancelled.". An exception from starting a tool ends the loop with "Download failed: …". There is no summary of failed items.
- A failed resolve or spawn in `_start_track` leaves the session idle, because `_stop_playback` has already run. It does not leave the previous session unchanged.
- Loading a playlist sets the shuffle snapshot to the loaded items rather than clearing it.

## Model

| member | source | states |
|---|---|---|
| Text.Strip | Personalfm.py:115-116 | `str.strip()`: the result has no whitespace at either end, and exactly whitespace was cut from both sides |
| Text.StripTrimmed | Personalfm.py:115-117 | stripping a trimmed string changes nothing; the result is empty exactly when the input is all whitespace |
| Text.ReplaceUnsafe | Personalfm.py:115 | after the replacement no character of `\ / : * ? " < > \|` is left, and every character is from the input or `_` |
| Text.ReplaceUnsafeKeepsSafe | Personalfm.py:115 | a string without unsafe characters passes through the replacement unchanged |
| Text.ReplaceUnsafeSplit | Personalfm.py:115 | the replacement of unsafe runs works run by run: a safe character splits the input, and each side is replaced on its own |
| Text.ReplaceUnsafeRun | Personalfm.py:115 | a whole run of unsafe characters, however long, becomes one `_` |
| Text.CollapseSpace | Personalfm.py:116 | `re.sub(r"\s+", " ", …)`: only plain blanks remain, never two in a row, and the result is empty iff the input is |
| Text.CollapseSpaceKeepsTidy | Personalfm.py:116 | a string with single plain blanks only is unchanged by the collapse |
| Text.CollapseSpaceSplit | Personalfm.py:116 | a character other than whitespace splits the collapse: each side is collapsed on its own |
| Text.CollapseSpaceRun | Personalfm.py:116 | a whole run of whitespace, however long, becomes one blank |
| Text.CleanStepsTidy | Personalfm.py:115-116 | the cleaning steps leave no unsafe character, no whitespace at the ends, and only single blanks |
| Text.CleanName | Personalfm.py:115-118 | the cleaned name, or "track" when it is empty, is a tidy name |
| Text.CleanNameKeepsTidy | Personalfm.py:115-118 | a name that is already tidy is its own cleaned name |
| Text.CleanNameKeepsText | Personalfm.py:115-118 | the cleaned name keeps every character other than whitespace, unsafe ones and `_`, in order and no others, whenever there is one |
| Text.TruncateKeepsTidy | Personalfm.py:119-120 | cutting a tidy name and appending "…" keeps it tidy |
| Text.SafeFilename | Personalfm.py:114-121 | result is non-empty and tidy, at most `max_len` long; kept whole when short enough, else the first `max_len - 1` characters plus "…" |
| Text.SafeFilenameKeepsText | Personalfm.py:114-121 | a name short enough once cleaned keeps every character other than whitespace, unsafe ones and `_`, in order and no others |
| Text.BlankNameBecomesTrack | Personalfm.py:117-118 | a name of whitespace only becomes "track" |
| Text.SafeFilenameIdempotent | Personalfm.py:114-121 | applying `safe_filename` twice gives the same name as once |
| Text.EllipsisWithoutTruncation | Personalfm.py:119-121 | a short name already ending in "…" is returned unchanged, so a final "…" does not prove truncation |
| Text.LowerChar | Personalfm.py:56 | `str.lower()` of one character: A–Z become a–z, the Kelvin sign becomes `k`, the dotted capital I becomes `i` and a combining dot, every other character is kept; the result holds a key character exactly in those cases or when the input is one |
| Text.Lower | Personalfm.py:56 | `str.lower()` character by character, never shorter, empty only for the empty string |
| Text.LowerAppend | Personalfm.py:56 | lower-casing distributes over concatenation |
| Text.LowerKeepsLowerCase | Personalfm.py:56 | a string of key characters and whitespace is its own lower case |
| Text.WordsAreWords | Personalfm.py:57-58 | every token of the split is a non-empty run of `[a-z0-9]` |
| Text.WordsCoverKeys | Personalfm.py:57-58 | the tokens, concatenated, are exactly the `[a-z0-9]` characters of the input in order |
| Text.JoinIsSearchKey | Personalfm.py:58 | joining tokens with single blanks gives a search key, non-empty when there is a token |
| Text.WordsSplit | Personalfm.py:57 | tokenising splits at any character outside `[a-z0-9]`: the tokens of `a + [c] + b` are those of `a` followed by those of `b` |
| Text.WordsOfWord | Personalfm.py:57 | a single run of `[a-z0-9]` is one token, itself |
| Text.JoinBlankAppend | Personalfm.py:58 | joining two non-empty token lists puts exactly one blank between their joins |
| Text.NormalizeForSearch | Personalfm.py:55-58 | output is `[a-z0-9]` runs separated by single blanks, none at either end |
| Text.NormalizeSplit | Personalfm.py:55-58 | a character that stays itself under `lower()` and is not in `[a-z0-9]` separates the key: each side normalises on its own and the two are joined by one blank, an empty side vanishing |
| Text.NormalizeWord | Personalfm.py:55-58 | a search token normalises to itself |
| Text.DottedCapitalISplitsWord | Personalfm.py:55-58 | the dotted capital I followed by a token normalises to "i", a blank and the token, because its lower case carries a combining dot |
| Text.SquashSpaces | Personalfm.py:61-62 | the result holds exactly the characters of the input other than the blank |
| Text.SquashAppend | Personalfm.py:61-62 | squashing distributes over concatenation |
| Text.NormalizeKeepsKeys | Personalfm.py:55-62 | squashing the normalised string gives exactly the `[a-z0-9]` characters of the lower-cased input |
| Text.KeepKeysAllOrNone | Personalfm.py:57 | a string of key characters is kept whole; one without any becomes empty |
| Text.Decimal | Personalfm.py:70 | `str(n)`: a non-empty run of digits that starts with '0' exactly when `n` is 0, so it has no leading zero; two digits at most below 100, three below 1000 |
| Text.DecimalCanonical | Personalfm.py:70 | every digit string without a leading zero is `str` of its own value, so `str(n)` is the only such string for `n` |
| Text.DecimalRoundTrip | Personalfm.py:70 | reading back the digits of `str(n)` gives `n` |
| Text.ZeroPad | Personalfm.py:70 | `f"{n:0wd}"`: digits whose value is `n`, exactly `max(w, len(str(n)))` of them, so two for `n < 100` and width 2 |
| Text.IntToString | Personalfm.py:678 | `str(i)` in a message: the digits of `i` read back as `i` with no leading zero, after a '-' when `i` is negative |
| Text.FmtMmss | Personalfm.py:65-70 | "??:??" exactly when the duration is missing or not positive |
| Text.FmtMmssReadsBack | Personalfm.py:65-70 | for positive seconds: minutes, a colon, two-digit seconds below 60, and minutes·60 + seconds equals the input |
| Text.Clamp | Personalfm.py:73-74 | `lo` when `v < lo`, otherwise `hi` when `v > hi`, otherwise `v`; so the result lies in `[lo, hi]` when `lo <= hi` |
| Text.IndexOf | Personalfm.py:860 | the first occurrence of a character, or none when it does not occur |
| Text.StripMarkupKeepsPlainPrefix | Personalfm.py:860 | removing `[...]` tags keeps a prefix without `[` unchanged |
| Text.StripLabel | Personalfm.py:860 | removing the tags of a track label leaves the title, the two-blank separator and the context |
| Text.BeforeSep | Personalfm.py:861 | `split("  (", 1)[0]` is a prefix of its input |
| Text.BeforeSepFindsFirst | Personalfm.py:861 | it stops at the first two-blank-and-parenthesis separator |
| Text.TitleFromLabel | Personalfm.py:859-862 | `title_from_label` is never empty and has no whitespace at either end |
| Text.TitleFromLabelRecoversTitle | Personalfm.py:859-862 | for a label built as `from_youtube` builds it, the title comes back exactly |
| Text.ContainsIffOccurs | Personalfm.py:586-591 | `needle in hay` holds exactly when the needle occurs at some position |
| Tracks.MakeTrack | Personalfm.py:148-155 | a Track's keys are search keys, each squashed key is its key without blanks, and the keys are derived from the name and the parent |
| Tracks.FromPath | Personalfm.py:138-155 | a local track keeps its path as uri, gets the label "name  [dim](parent)[/dim]", and has consistent keys |
| Tracks.FromYoutube | Personalfm.py:159-171 | a remote track keeps its URL, gets the label "title  [dim](playlist)[/dim]", and has consistent keys |
| Tracks.DownloadTitleOfRemoteTrack | Personalfm.py:159-163 | the download loop's title of a remote track is its title again |
| Tracks.Filter | Personalfm.py:586-594 | a track is in the result iff it is in the list and matches; the result is a subsequence of the list |
| Tracks.SubsequenceOfItself | Personalfm.py:579-581 | a list is a subsequence of itself |
| Tracks.ApplySearch | Personalfm.py:577-595 | a blank query gives all tracks in order; otherwise membership iff one of the four `in` tests holds; always a subsequence |
| Tracks.QueryWithoutKeysKeepsAll | Personalfm.py:584-594 | a query without letters or digits has an empty key, so every track matches |
| Tracks.FilterKeepsAllOnEmptyKey | Personalfm.py:586-594 | with empty keys the filter keeps every track |
| Paths.LastIndexOf | Personalfm.py:915-923 | the last position of a character, or none |
| Paths.Name | Personalfm.py:927 | `Path.name` is a suffix of the path with no `/` |
| Paths.SuffixStart | Personalfm.py:923 | a suffix starts at an inner dot, not at the first or last character |
| Paths.Suffix | Personalfm.py:923 | `Path.suffix` is empty or a dot followed by at least one character |
| Paths.Stem | Personalfm.py:920 | `Path.stem` is a prefix of the name |
| Paths.StemSuffixSplit | Personalfm.py:920-923 | stem followed by suffix is the name; a non-empty name has a non-empty stem |
| Paths.Parts | Personalfm.py:831 | the components of a path string are non-empty, not `.`, and free of `/` |
| Paths.Parse | Personalfm.py:831 | `Path(s)` is rooted exactly when `s` starts with `/`, and its components are normal |
| Paths.PartsSplit | Personalfm.py:831 | the components of `a/b` are those of `a` followed by those of `b` |
| Paths.PartsOfSlashed | Personalfm.py:831 | components written with `/` between them parse back to themselves |
| Paths.ParseStr | Personalfm.py:831 | `Path(str(p)) == p` for every path |
| Paths.NormalizeIdempotent | Personalfm.py:831 | printing a parsed path and parsing it again changes nothing |
| Paths.ExpandUser | Personalfm.py:831 | `expanduser()` replaces a leading `~` by the home directory, giving `home / rest`, and leaves every other path alone |
| Paths.DestFolder | Personalfm.py:831 | the folder `~` alone is the home directory, printed in normal form |
| Paths.Child | Personalfm.py:898 | `p / name` appends a plain name as one more component, and keeps the path normal |
| Paths.Join | Personalfm.py:898 | `str(dest / name)` for a folder in normal form: the name alone under the current directory, otherwise ending with `/` and the name |
| Paths.JoinOfNormal | Personalfm.py:898 | `Join` on the printed form of any normal path is pathlib's `/` printed |
| Paths.JoinOntoCurrent | Personalfm.py:898 | pathlib's `/` under `.`, an empty folder or `./` gives the name itself |
| Paths.NameOfJoin | Personalfm.py:921 | the name of `dest / name` is `name` when it is non-empty and has no `/` |
| Paths.NameOfStr | Personalfm.py:915-921 | the name of a printed path is its last component |
| Paths.LastIndexOfIsLast | Personalfm.py:923 | the last occurrence found is the last one |
| Timing.Max0 | Personalfm.py:773 | `max(0, x)`: 0 for a negative `x`, `x` otherwise |
| Timing.Start | Personalfm.py:997-1000 | a fresh clock is playing, not paused, with no paused time |
| Timing.Elapsed | Personalfm.py:958-963 | elapsed time is never negative and is 0 when nothing plays |
| Timing.Pause | Personalfm.py:764-766 | pausing records the moment and changes nothing else |
| Timing.Resume | Personalfm.py:768-772 | resuming adds `max(0, now - paused_at)` to the paused total and changes nothing else |
| Timing.Toggle | Personalfm.py:758-776 | pause/resume flips the paused flag |
| Timing.PausedIgnoresNow | Personalfm.py:961-962 | while paused the elapsed time does not depend on `now` |
| Timing.RunningAdvances | Personalfm.py:963 | while running, elapsed time grows by at most the time that passes |
| Timing.PauseIsContinuous | Personalfm.py:764-766 | pausing does not change the elapsed time at that moment |
| Timing.ResumeIsContinuous | Personalfm.py:768-772 | resuming does not change the elapsed time at that moment |
| Timing.ToggleKeepsSane | Personalfm.py:758-776 | a toggle at a later time keeps the clock sane and adds exactly the running time since |
| Timing.ElapsedIsPlayedTime | Personalfm.py:758-776 | after any sequence of presses at ordered times, elapsed time is the time spent running |
| Timing.PlayedNonNegative | Personalfm.py:958-963 | time spent running over ordered presses is never negative |
| Timing.FromStart | Personalfm.py:997-1000 | from a start, elapsed time equals the time spent running |
| Timing.ElapsedNeverDecreases | Personalfm.py:958-963 | over any pause/resume sequence with non-decreasing times, elapsed time never decreases |
| Shuffling.Swap | Personalfm.py:714 | one exchange step of the shuffle keeps the multiset and changes only the two positions |
| Shuffling.ShuffleBy | Personalfm.py:714 | `random.shuffle`: the result is a permutation of the playlist for any draws |
| Shuffling.ShuffleByStep | Personalfm.py:714 | one step of the shuffle: swap the last position, then shuffle the rest |
| Shuffling.EveryOrderReachable | Personalfm.py:714 | every permutation of the playlist is the result of some draws |
| Session.StopSignals | Personalfm.py:1023-1033 | nothing for no process or a dead one; otherwise SIGTERM to it first, then SIGKILL to it as the second and last signal exactly when it has not exited in time, so SIGTERM alone when it exits on TERM |
| Session.RemoveAt | Personalfm.py:704 | `list.pop(i)` shortens the list by one |
| Session.RemoveAtShifts | Personalfm.py:704 | entries before `i` stay, later ones shift down by one, one occurrence of the popped entry goes |
| Session.Player.constructor | Personalfm.py:405-421 | a new session is idle with an empty playlist, shuffle off and no snapshot |
| Session.Player.CurrentElapsed | Personalfm.py:958-963 | 0 when nothing plays; while paused, the elapsed time at the pause |
| Session.Player.StopPlayback | Personalfm.py:1013-1037 | every session field but the start time is reset whatever the state; the playlist, shuffle and status stay; the dropped process gets the stop signals |
| Session.Player.Stop | Personalfm.py:687-689 | stop leaves the session idle and says "Stopped playback." |
| Session.Player.StartTrack | Personalfm.py:978-1011 | a guard refusal changes only the status; otherwise the old session is stopped, then either the track plays with fresh timers, source and index, or the session ends idle; the playlist is untouched; the invariant is kept |
| Session.Player.SpawnPlayer | Personalfm.py:986-1011 | past the guards: stop, then start or fail idle |
| Session.Player.Begin | Personalfm.py:993-1005 | a successful start sets process, track, fresh clock, duration, source and index |
| Session.Player.TogglePause | Personalfm.py:758-776 | without a live process, or when the signal fails, only the status changes; otherwise SIGSTOP/SIGCONT is sent and the clock toggles as `Timing.Toggle`; the invariant is kept |
| Session.Player.NextTrack | Personalfm.py:727-740 | no-op unless playing from the playlist with a next entry; otherwise the next entry starts with its index |
| Session.Player.PrevTrackAsWritten | Personalfm.py:742-755 | as written: raises IndexError exactly when the previous index lies beyond the end of the playlist |
| Session.Player.PrevTrack | Personalfm.py:742-755 | corrected previous: no-op at the start or beyond the end; otherwise the previous entry starts; the invariant is kept |
| Session.Player.TickProgressAsWritten | Personalfm.py:1039-1055 | as written: a live or absent process changes nothing; an exited one advances or stops, and an advance the guard refuses leaves only `Consistent` |
| Session.Player.TickProgress | Personalfm.py:1039-1055 | corrected tick: an advance the guard refuses ends the session idle with the refusal message; the invariant is kept |
| Session.Player.CurrentPlaylistIndex | Personalfm.py:658-663 | the cursor when it points at an entry, none otherwise |
| Session.Player.AddToPlaylist | Personalfm.py:691-697 | appends the selected track, or does nothing without one |
| Session.Player.RemoveFromPlaylist | Personalfm.py:699-706 | pops the entry under the cursor, or reports that nothing is selected; the play index is not adjusted |
| Session.Player.ToggleShuffleAsWritten | Personalfm.py:708-724 | as written: empty is a no-op; on keeps an existing snapshot and shuffles; off restores the snapshot, which stays |
| Session.Player.ToggleShuffle | Personalfm.py:708-724 | corrected toggle: on always snapshots the current list, then shuffles it into a permutation; off restores the snapshot |
| Session.Player.ShuffleIn | Personalfm.py:711-717 | shuffle on: snapshot, then a permutation of the playlist |
| Session.Player.ShuffleOut | Personalfm.py:718-722 | shuffle off: the snapshot comes back and stays saved |
| Session.Player.ShuffleOnOff | Personalfm.py:708-724 | shuffle on then off gives back the playlist in its original order |
| Session.Player.LoadPlaylist | Personalfm.py:666-681 | shuffle goes off; on failure or no items the snapshot is cleared and the playlist kept; on success playlist and snapshot are the loaded items |
| Session.PlayingLocalBeforeRemote | Personalfm.py:978-1011 | an ffplay session can be playing a local entry followed by a remote one |
| Session.AutoAdvanceStrandsTrack | Personalfm.py:1039-1051 | as written, the advance to a remote entry under ffplay leaves a track playing without a process |
| Session.AutoAdvanceEndsSession | Personalfm.py:1039-1051 | with the corrected tick the same steps end idle and valid |
| Session.PlayingThirdOfThree | Personalfm.py:978-1011 | a session can be playing entry 3 of a 3-entry playlist from the playlist |
| Session.PrevAfterRemoveRaises | Personalfm.py:742-755 | after removing two entries, previous raises IndexError |
| Session.LoadedThenAdded | Personalfm.py:666-697 | load `[a]`, add `b`: playlist `[a, b]`, snapshot `[a]` |
| Session.ShuffleDropsAddedTrack | Personalfm.py:708-724 | as written, shuffle on and off after the add gives `[a]`: the added track is lost |
| Session.ShuffleKeepsAddedTrack | Personalfm.py:708-724 | with the corrected toggle the same steps give back `[a, b]` |
| Batch.Num | Personalfm.py:891 | `f"{i:03d}"`: digits whose value is `i`, exactly `max(3, len(str(i)))` of them, so exactly three below 1000 |
| Batch.Render | Personalfm.py:894 | the progress title is empty exactly for the blank heading |
| Batch.DigitRunOf | Personalfm.py:891-894 | the digit run before a separator is the number's digits |
| Batch.DigitsBeforeSeparator | Personalfm.py:891-894 | digits before a non-digit separator are determined uniquely |
| Batch.ItemHeadingNamesPosition | Personalfm.py:891-894 | two item titles that are equal name the same position and total |
| Batch.CancelEvents | Personalfm.py:811-828 | "Cancelling download…" comes first; then SIGTERM to the tool process as the one other event exactly when there is a live one; never SIGKILL |
| Batch.ToolSteps | Personalfm.py:864-885 | `run_popen`: a start exception propagates; code 999 iff cancelled while alive and surviving SIGTERM (or the tool's own code is 999); else `returncode or 0`; only SIGTERM |
| Batch.AfterTool | Personalfm.py:908-913 | the rest of an item after its tool sets no progress, sends only SIGTERM, breaks only on a cancel during it, aborts only with the exception of starting its tool, and goes on when neither happens |
| Batch.LateCancel | Personalfm.py:811-817 | a cancel during an item without a tool sends nothing |
| Batch.Reported | Personalfm.py:915-932 | an item part without a tool never breaks or aborts and always goes on without a cancel; it sets no progress and sends only SIGTERM |
| Batch.RemoteItem | Personalfm.py:896-913 | a remote item sets no progress, sends only SIGTERM, breaks only on a cancel during it, aborts only with the exception of starting its tool, and goes on when neither happens |
| Batch.LocalCopy | Personalfm.py:923-928 | copying an mp3 sets no progress, sends only SIGTERM, breaks only on a cancel during it, aborts only with the exception of starting its tool, and goes on when neither happens |
| Batch.LocalConvert | Personalfm.py:930-939 | running ffmpeg and reporting a non-zero exit code sets no progress, sends only SIGTERM, breaks only on a cancel during it, aborts only with the exception of starting its tool, and goes on when neither happens |
| Batch.LocalItem | Personalfm.py:915-939 | a local item, missing, copied, refused for want of ffmpeg or converted, sets no progress, sends only SIGTERM, breaks only on a cancel during it, aborts only with the exception of starting its tool, and goes on when neither happens |
| Batch.ItemBody | Personalfm.py:896-939 | the work of one item sets no progress, sends only SIGTERM, breaks only on a cancel during it, aborts only with the exception of starting its tool, and goes on when neither happens |
| Batch.LoopStep | Personalfm.py:888-890 | one loop turn: continue, break on cancel, or fail |
| Batch.LoopStop | Personalfm.py:888-890 | the loop stops before an item once cancel has arrived, or at the end |
| Batch.Runs | Personalfm.py:888-939 | item `k` of the snapshot is processed as item `k + 1` of `N` |
| Batch.RunsPlanned | Personalfm.py:888-939 | the runs are the planned per-item steps |
| Batch.Progress | Personalfm.py:893-894 | the progress updates of a run |
| Batch.ProgressAppend | Personalfm.py:893-894 | progress distributes over concatenation |
| Batch.QuietHasNoProgress | Personalfm.py:893-894 | events that set no progress give none |
| Batch.ItemProgress | Personalfm.py:893-894 | each item sets the progress exactly once, to itself |
| Batch.LoopInOrder | Personalfm.py:888-894 | the loop's progress updates are a prefix of the item headings in order |
| Batch.LoopCancelStops | Personalfm.py:889-890 | no item after the one during which cancel arrived is started |
| Batch.LoopUndisturbed | Personalfm.py:888-939 | without cancel or exceptions every item is processed and the loop finishes |
| Batch.LoopExit | Personalfm.py:941-943 | the loop ends "cancelled" only if cancel arrived, "finished" only if it did not, and "failed" only with the exception of a later item |
| Batch.LoopOnlyTerm | Personalfm.py:870-882 | the loop sends only SIGTERM |
| Batch.Heads | Personalfm.py:893-894 | the heading of item `k` is `(k + 1, N, item)` |
| Batch.RunsProgress | Personalfm.py:893-894 | each planned run reports exactly its own heading |
| Batch.InOrder | Personalfm.py:888-894 | the download reports items in snapshot order, a prefix of all of them |
| Batch.CancelStops | Personalfm.py:889-890 | with cancel during item `c`, at most `c` items are started |
| Batch.Undisturbed | Personalfm.py:888-941 | without cancel and with every tool starting, all items are processed and the download finishes |
| Batch.ExitReason | Personalfm.py:941-943 | the final message matches what happened |
| Batch.OnlySigTerm | Personalfm.py:819-828 | the whole download sends no signal but SIGTERM |
| Download.Downloader.constructor | Personalfm.py:423-431 | the controller starts idle with no prompt, no job and no process |
| Download.Downloader.Say | Personalfm.py:434-438 | a status message changes only the status line |
| Download.Downloader.ActionDownloadPlaylist | Personalfm.py:779-798 | refused while running or for an empty playlist; otherwise the folder prompt opens, once |
| Download.Downloader.HidePrompt | Personalfm.py:800-809 | the prompt closes, with "Download cancelled." when cancelled |
| Download.Downloader.Kickoff | Personalfm.py:830-847 | a bad folder, or yt-dlp missing for a remote item, refuses with its message and changes nothing; otherwise the job starts with counters reset and total = playlist length, and the message names the folder expanded and normalised |
| Download.Downloader.SubmitDownloadPath | Personalfm.py:568-575 | with the prompt shown it always closes; the stripped path then starts the download, or is refused for a bad folder or a missing yt-dlp with nothing else changed; an empty path is reported; nothing happens without the prompt |
| Download.Downloader.CancelDownload | Personalfm.py:811-828 | no-op message without a job; otherwise the cancel flag is set and a live tool gets SIGTERM |
| Download.Downloader.RunTool | Personalfm.py:864-885 | running a tool does exactly what `Batch.ToolSteps` says |
| Download.Downloader.DownloadRemote | Personalfm.py:896-913 | a remote item does exactly what `Batch.RemoteItem` says |
| Download.Downloader.LateCancelAt | Personalfm.py:811-817 | a cancel during an item without a tool does what `Batch.LateCancel` says |
| Download.Downloader.Convert | Personalfm.py:930-939 | converting does exactly what `Batch.LocalConvert` says |
| Download.Downloader.DownloadLocal | Personalfm.py:915-939 | a local item does exactly what `Batch.LocalItem` says |
| Download.Downloader.DownloadBody | Personalfm.py:896-939 | an item's work does exactly what `Batch.ItemBody` says |
| Download.Downloader.DownloadItem | Personalfm.py:888-939 | an item sets `cur` and the title, then does `Batch.ItemSteps` |
| Download.Downloader.Pass | Personalfm.py:888-939 | one pass of the loop does the planned run of that item |
| Download.Downloader.Turn | Personalfm.py:888-939 | one loop turn, with the cancel check, follows `Batch.Loop` |
| Download.Downloader.WorkThrough | Personalfm.py:887-940 | the `for` loop's log and exit are those of `Batch.Loop` |
| Download.Downloader.Finish | Personalfm.py:944-950 | the `finally` block resets in-progress, cancel, cur, total, title and process |
| Download.Downloader.RunDownload | Personalfm.py:856-950 | the background download's log is `Batch.DownloadEvents`, its last message the exit note, and every field is reset at the end |

## Left out

- The Textual user interface: the widgets, CSS, list refreshes, key bindings, focus handling and the rendering of the progress and download panels.
- Process control: `subprocess.Popen`, `os.killpg` and `proc.wait` timeouts. A process is an opaque handle. Its liveness, its exit within the wait and its start failure are inputs. Signals are logged events.
- StopSignals and CancelEvents: the `proc.terminate()` fallback taken when `os.killpg` raises is not modelled. The model assumes the signal is delivered.
- The timing of `run_popen`'s 0.1 s polling loop and its 1 s wait. Only whether the tool is still alive when cancel arrives, and whether it dies on SIGTERM, are modelled.
- Floating point time. Time is an integer `now` given by the caller, and the pause arithmetic is exact. `fmt_mmss` rounds with `int(seconds + 0.5)`; the model takes whole seconds.
- `get_duration_seconds`, `resolve_youtube_audio_stream` and `fetch_youtube_playlist_tracks`. Their results or exceptions are inputs.
- `normalize_youtube_url`. The URL passed to yt-dlp is the track's uri.
- `scan_tracks_recursive`, `find_player`, `rescan`, `on_list_view_selected` and `current_track`. The player found is a constructor argument. The selected track and the cursor are inputs.
- Tracks.FromPath: the path's name, parent and relative parent are given as inputs rather than computed with `pathlib` and `Path.cwd()`.
- `mkdir`, `shutil.which` and `Path.exists`. Their outcomes are inputs. The home directory is an input of `Kickoff`.
- Paths.ExpandUser: `~user` for another user is not expanded, and the `RuntimeError` when the home directory cannot be found is not modelled.
- Paths.Parse: a path starting with exactly two slashes keeps both in `pathlib`; the model keeps one.
- Paths.Join: it takes the folder already in normal form, as `Kickoff` prints it; `Paths.JoinOfNormal` shows it is `pathlib`'s `/` there. `Downloader.RunDownload` takes that folder as its input rather than from `Kickoff`.
- Paths.Name: it reads the path as written. `Paths.NameOfStr` shows it agrees with `pathlib` on the normal form, which is what the scan and the download produce.
- `asyncio`. The background download runs as a plain sequential method. A cancel request is an input that arrives before the first item or during a given item; one arriving after the last item has finished is not modelled.
- Text.LowerChar: `str.lower()` is modelled for A–Z, the Kelvin sign and the dotted capital I; other characters stand for themselves. Their real lower case contains no `[a-z0-9]` and no whitespace, so the search keys and the `.mp3` test come out the same.
- The distribution of `random.shuffle`. Only the reachable results, every permutation, are modelled.
- `on_shutdown` and the signal handlers.
- Text.SafeFilename: "ends in … exactly when truncated" holds in one direction only. A truncated name always ends in "…", but a short name may already end in one (`Text.EllipsisWithoutTruncation`).
- Session.Player.TickProgressAsWritten: it promises only `Consistent()`, not `Valid()`, after the tick, because as written the session can be left with a track and no process.

## Findings

| source | as written | input that shows it | evidently intended | confidence | as-written member | corrected member |
|---|---|---|---|---|---|---|
| Personalfm.py:1039-1051 with 978-984 | `_tick_progress` clears `_proc` and then calls `_start_track`, whose guard can refuse (YouTube without mpv) and return without stopping the session | ffplay as player; playlist [local a, remote b]; a is playing and its process exits; the next tick | the session ends (idle) when the next entry cannot be played | high, not executed | Session.AutoAdvanceStrandsTrack | Session.Player.TickProgress |
| Personalfm.py:742-755 | `action_prev_track` checks only `prv < 0`, and `playlist[prv]` can lie beyond the end after remove, reload or shuffle-off | playing entry 3 of [a, b, c]; remove entry 1 twice; press p | refuse like `action_next_track` does beyond the end | high, not executed | Session.PrevAfterRemoveRaises | Session.Player.PrevTrack |
| Personalfm.py:708-724 | shuffle on keeps an existing snapshot, so a later shuffle off restores a stale list | load [a]; add b; shuffle on; shuffle off gives [a] | shuffle off restores the list as it was when shuffle was turned on | medium, not executed | Session.ShuffleDropsAddedTrack | Session.Player.ToggleShuffle |
