# whisper-audio-gui, modelled in Dafny

whisper-audio-gui is a Qt desktop front end for the Whisper speech-to-text
model. This project models the sequential logic under the Qt wiring:

- **The background worker** (`ThreadWorker`, in `thread_worker.dfy`). The
  repository has two copies that differ only in comments. The worker stores a
  task function and its argument tuple. `run` emits a fixed sequence of
  signals around one call of the task: a start log, then either `finished`
  and a completion log, or one `error`. The thread is not modelled. The
  class keeps the emitted signals as a trace, and `Emissions` is the
  specification the trace is proved against.
- **The two transcription controllers**:
  - `AudioText` in `audio_to_text.dfy`, from the `src` application;
  - `MainWindow` in `main_window.dfy`, from the `whisper-gui` application.

  Each is a class over a worker handle, a log, a file store (a map from path
  to contents), and, for `MainWindow`, a progress value. Connecting signals
  to slots is modelled by `Deliver`, which routes one signal to its slot.
  `RunWorker` runs the worker and delivers its signals in order. Both are
  proved against a pure `Step`/`Steps` fold over a snapshot of the state,
  and lemmas compute that fold for a successful and for a failed task.
- **The transcript file name** (`transcript_names.dfy`). The name is
  `<name up to its last '.'>_<YYYY-MM-DD_HH-MM-SS>.txt`. It is proved to
  parse back into the source stem and the timestamp. It is therefore
  injective: two saves get the same name only for the same stem in the same
  second.
- **The media-player widget** (`player.dfy`). A class holds the playlist,
  its index, the play/pause button states, and an abstract player (source,
  position, duration, playback state). The model covers the invariants and
  transitions of `open`, previous and next, the play, pause and stop
  buttons, and the `mm:ss / mm:ss` position label, which is proved to read
  back to whole minutes and seconds.
- **The display helpers** of the main dialog (`media_player_main.dfy`):
  - `style_names` is a loop proved to produce a permutation of the style
    keys, with the default style first;
  - `format_geometry` writes an X Window System geometry string (the
    "GEOMETRY SPECIFICATIONS" section of the X(7) manual page). It is proved
    to parse back to the rectangle exactly when width and height are
    non-negative.

`text.dfy` holds the decimal formatting these share: Python's `str(int)`,
`format(i, "02")` and `format(i, "+d")`. It parses and round-trips only the
non-negative decimal and zero-padded forms (`ParseDecimal`,
`ParseNatToDecimal`, `ZeroPaddedRoundTrip`). The signed `"+d"` form is read
back in `media_player_main.dfy` (`ParseOffset`, `SignedDecimalParts`). No
lemma reads back `str(i)` of a negative `i`; `GeometryRoundTrip` shows that
such a string is not a geometry.

The Whisper engine is a parameter of type `string -> Outcome<string>`. The
clock reading `datetime.now()` is also a parameter, a `Timestamp` record. The
dialog result of `QFileDialog` is a parameter too (`Option<string>`, and `""`
for a cancelled `getOpenFileName`).

Neither controller clears its worker handle after a successful run; only
`task_error` does (src/infrastructure/audio_to_text.py:76,
whisper-gui/src/presentation/main_window.py:116). In the `src` application,
`finished` goes straight to the result callback, so its `save_results` is
never reached by a run. `MainWindow.OnlyErrorClears` and the `RunSucceeds`
lemmas state that a successful run leaves the handle as it was.

The `MainWindow` text edit is a list of paragraphs, with `[]` for the empty
document. `setPlainText("")` leaves the empty document, and `append` on an
empty document fills its one block instead of starting a new paragraph. So
after an empty transcript the window shows only the completion log.

## Model

| member | source | states |
|---|---|---|
| ThreadWorker.NormalizeArgs | src/infrastructure/thread_worker.py:17 | An absent or empty argument tuple becomes the empty one; otherwise the given arguments are kept exactly. |
| ThreadWorker.ThreadWorker.constructor | whisper-gui/src/infrastructure/thread_worker.py:13-16 | The worker stores the task function and the normalised arguments and has emitted nothing. |
| ThreadWorker.Emissions | src/infrastructure/thread_worker.py:23-31 | A run emits at least two signals, the start log first; after it comes `finished(r)` and the completion log for a task that returned `r`, or the single prefixed `error` for one that raised. |
| ThreadWorker.ThreadWorker.Emit | src/infrastructure/thread_worker.py:9-12 | One signal is appended to the trace after all earlier ones. |
| ThreadWorker.ThreadWorker.Run | src/infrastructure/thread_worker.py:19-31 | The task is called once with exactly the stored arguments, and the trace grows by exactly the run's emissions for that outcome. |
| ThreadWorker.EmissionsNoProgress | whisper-gui/src/infrastructure/thread_worker.py:22-31 | No signal of a run is `progress`: the worker never reports progress. |
| ThreadWorker.EmissionsOnSuccess | src/infrastructure/thread_worker.py:26-29 | If the task returns `r`: `finished(r)` comes right after the start log, the completion log is last, and there is no `error`. |
| ThreadWorker.EmissionsOnFailure | whisper-gui/src/infrastructure/thread_worker.py:30-31 | If the task raises, the run emits no `finished` signal and no completion log. |
| ThreadWorker.EmissionsOneTerminal | src/infrastructure/thread_worker.py:23-31 | Exactly one terminal signal per run: one `finished` iff the task returned, one `error` iff it raised. |
| Text.NatToDecimal | src/presentation/view/media_player_main.py:33 | `str(n)` of a non-negative int is a non-empty run of digits with no leading zero. |
| Text.ParseNatToDecimal | src/presentation/view/media_player_main.py:33 | The digits `str(n)` writes read back as `n`. |
| Text.IntToDecimal | src/presentation/view/media_player_main.py:33 | `str(i)` starts with '-' exactly when `i` is negative. |
| Text.SignedDecimal | src/presentation/view/media_player_main.py:33 | `format(i, "+d")` always starts with a sign: '-' exactly for negative `i`, '+' otherwise. |
| Text.FormatZeroPadded | src/presentation/view/player.py:152 | `format(i, "02")` has the width, or the unpadded length when that is longer. |
| Text.ZeroPaddedRoundTrip | src/presentation/view/player.py:152-153 | A non-negative number below 10^width is written in exactly `width` characters and reads back as itself, leading zeros included. |
| TranscriptNames.Stamp | src/infrastructure/audio_to_text.py:41 | The `%Y-%m-%d_%H-%M-%S` stamp of a valid timestamp is always 19 characters. |
| TranscriptNames.StampRoundTrip | src/infrastructure/audio_to_text.py:41 | The stamp parses back to the same year, month, day, hour, minute and second. |
| TranscriptNames.LastIndexOf | src/infrastructure/audio_to_text.py:42 | The index found holds the character and no later index does; -1 means the character does not occur. |
| TranscriptNames.Stem | src/infrastructure/audio_to_text.py:42 | `rsplit('.', 1)[0]` is a prefix of the name, and when shorter it stops at a '.'. |
| TranscriptNames.StemSplits | src/infrastructure/audio_to_text.py:42 | `rsplit('.', 1)[0]` is a prefix of the name. With no '.', it is the whole name; otherwise it is followed by a '.' and a remainder without dots. |
| TranscriptNames.StemOfExtension | src/infrastructure/audio_to_text.py:42 | Conversely, `stem + "." + ext` with a dot-free `ext` has stem `stem`. |
| TranscriptNames.StemDirectoryDot | src/infrastructure/audio_to_text.py:42 | A '.' in a directory component counts: `media.v2/clip` has stem `media`. |
| TranscriptNames.OutputName | whisper-gui/src/presentation/main_window.py:73 | The saved name is 24 characters longer than the stem. |
| TranscriptNames.OutputNameRoundTrip | src/infrastructure/audio_to_text.py:41-42 | The saved name splits back into the stem and the timestamp it was built from. |
| TranscriptNames.OutputNameInjective | whisper-gui/src/presentation/main_window.py:72-73 | Two saved names are equal iff the stems are equal and the timestamps are equal. |
| TranscriptNames.OutputNameExample | src/infrastructure/audio_to_text.py:41-42 | "clip.mp3" saved at 2024-01-02 03:04:05 gives "clip_2024-01-02_03-04-05.txt". |
| AudioToText.ProcessFile | src/infrastructure/audio_to_text.py:26-32 | The result is the file name, unchanged, with the engine's text. An engine failure passes its message through. |
| AudioToText.TaskFunction | src/infrastructure/audio_to_text.py:58-60 | The worker's `task_function(*args)` with the one-tuple `start_task` builds: it succeeds exactly when the engine does, pairing the first argument with the engine's text. |
| AudioToText.Step | src/infrastructure/audio_to_text.py:62-65 | One signal through the connections: it never writes a file and only extends the log; only `error` clears the handle; only `finished` adds one result. |
| AudioToText.Steps | src/infrastructure/audio_to_text.py:62-76 | Any sequence of signals writes no file, only extends the log and the results, and never sets the handle. |
| AudioToText.RunSucceeds | src/infrastructure/audio_to_text.py:63-65 | A successful run logs the start and completion messages and hands the transcript to the result callback once. It keeps the worker handle and writes no file. |
| AudioToText.RunFails | src/infrastructure/audio_to_text.py:63-76 | A failed run logs the start message, then "Error: " + the worker's error message, and clears the handle. The result callback receives nothing and no file is written. |
| AudioToText.TranscriptionOutcome | src/infrastructure/audio_to_text.py:58-65 | For the task `start_task` builds for one file: the engine's text reaches the result callback with that file's name, or the engine's message is logged behind both prefixes and the handle is cleared. |
| AudioToText.AudioText.constructor | src/infrastructure/audio_to_text.py:13-24 | No worker, and nothing logged, delivered or written. |
| AudioToText.AudioText.SaveResults | src/infrastructure/audio_to_text.py:34-50 | The text is stored verbatim at the derived name, replacing earlier contents; the name and the text are returned. |
| AudioToText.AudioText.StartTask | src/infrastructure/audio_to_text.py:52-67 | The handle is replaced, whatever it held, by a fresh worker. Its single argument is the file name, and its task is `process_file` of that name. |
| AudioToText.AudioText.TaskError | src/infrastructure/audio_to_text.py:71-76 | With a worker, "Error: " + message is logged and the handle is cleared. Without one, nothing changes. |
| AudioToText.AudioText.Deliver | src/infrastructure/audio_to_text.py:62-65 | One signal has the effect `Step` gives: logs go to the log callback and results to the result callback, `error` goes to `task_error`, and `progress` is unconnected. |
| AudioToText.AudioText.RunWorker | src/infrastructure/audio_to_text.py:59-67 | Running the worker and delivering its signals in emission order leaves the state that `Steps` gives for that run's emissions. |
| MainWindow.Document | whisper-gui/src/presentation/main_window.py:80 | `setPlainText(t)` leaves one paragraph, or the empty document for "". |
| MainWindow.Append | whisper-gui/src/presentation/main_window.py:103 | `append` keeps every earlier paragraph and adds at most one; it fills the empty document's block rather than adding a blank paragraph before it. |
| MainWindow.SetValue | whisper-gui/src/presentation/main_window.py:109 | `setValue` takes a value in 0..100 and ignores any other; a bar showing no progress or a value in range keeps doing so. |
| MainWindow.Step | whisper-gui/src/presentation/main_window.py:92-95 | One signal through the four connections: only `error` clears the handle, only `finished` writes (the transcript at its derived name), only `progress` moves the bar. |
| MainWindow.Steps | whisper-gui/src/presentation/main_window.py:92-116 | Any sequence of signals never sets the handle, never removes a file, and keeps the bar at "no progress" or in 0..100. |
| MainWindow.OnlyErrorClears | whisper-gui/src/presentation/main_window.py:92-95 | Over any sequence of signals, the worker handle is kept when no `error` is among them and cleared when one is. |
| MainWindow.RunSucceeds | whisper-gui/src/presentation/main_window.py:65-80 | After a successful run, the transcript is saved under its timestamped name. The text edit holds the transcript, then the completion log; for an empty transcript only the log. Handle and progress are unchanged. |
| MainWindow.RunFails | whisper-gui/src/presentation/main_window.py:111-116 | A failed run logs the start message and the prefixed error and clears the handle. It writes no file. |
| MainWindow.TranscriptionOutcome | whisper-gui/src/presentation/main_window.py:82-97 | For the task started for one file: on success, the saved file holds exactly the engine's text and the display shows it (nothing for an empty text) before the completion log. On failure, nothing is written and the handle is cleared. |
| MainWindow.MainWindow.constructor | whisper-gui/src/presentation/main_window.py:14-40 | No worker, an empty text edit, a progress bar showing no progress (-1), and no files. |
| MainWindow.MainWindow.UpdateLog | whisper-gui/src/presentation/main_window.py:99-103 | Appends the message as `append` does; earlier paragraphs are unchanged, and a non-empty message becomes the last paragraph. |
| MainWindow.MainWindow.UpdateProgressBar | whisper-gui/src/presentation/main_window.py:105-109 | Shows the value when it is in 0..100, otherwise keeps the old one; nothing else changes. |
| MainWindow.MainWindow.LoadFile | whisper-gui/src/presentation/main_window.py:42-55 | A cancelled dialog changes nothing. A chosen file logs "Loading file..." then "Starting task...", resets progress, and starts a worker for that file. |
| MainWindow.MainWindow.StartTask | whisper-gui/src/presentation/main_window.py:82-97 | Logs "Starting task..." and resets the progress to 0. The handle is replaced by a fresh worker whose one argument is the file name. |
| MainWindow.MainWindow.SaveResults | whisper-gui/src/presentation/main_window.py:65-80 | Writes the text verbatim to the derived name. After the "Results saved to" log, the display holds exactly the text (the empty document for ""). |
| MainWindow.MainWindow.TaskError | whisper-gui/src/presentation/main_window.py:111-116 | Appends "Error: " + message and clears the handle. |
| MainWindow.MainWindow.Deliver | whisper-gui/src/presentation/main_window.py:92-95 | One signal has the effect `Step` gives through the four connections. |
| MainWindow.MainWindow.RunWorker | whisper-gui/src/presentation/main_window.py:89-97 | Running the worker and delivering its signals in order leaves the state that `Steps` gives for that run's emissions. |
| Player.GetSupportedMimeTypes | src/presentation/view/player.py:20-29 | The mime names of the decodable formats, in order and one each, then "audio/mpeg" last. |
| Player.PlayEnabled | src/presentation/view/player.py:204-205 | Play is enabled iff there is media and the player is stopped or paused. |
| Player.PauseEnabled | src/presentation/view/player.py:206 | Pause is enabled iff the player is neither stopped nor paused. |
| Player.ButtonsExclusive | src/presentation/view/player.py:203-206 | Play and Pause are never both enabled. With media, exactly one is; with an empty playlist, Play is disabled. |
| Player.Pad2 | src/presentation/view/player.py:152 | `f"{n:02}"` is at least two characters, exactly two below 100, and reads back as `n` for `n >= 0`. |
| Player.Clock | src/presentation/view/player.py:152-153 | The "mm:ss" text has at least five characters, with the ':' third from the end. |
| Player.ClockRoundTrip | src/presentation/view/player.py:152-153 | A non-negative position's label reads back as whole minutes (not reduced mod 60) and seconds within the minute. Together these give the elapsed seconds. |
| Player.ClockExample | src/presentation/view/player.py:152 | 754000 ms shows as "12:34". |
| Player.MediaPlayerWidget.constructor | src/presentation/view/player.py:37-64 | Empty playlist with index -1, no source, stopped at position 0 with duration 0, both buttons disabled, label "00:00 / 00:00", slider at 0 with range 0. |
| Player.MediaPlayerWidget.UpdateButtons | src/presentation/view/player.py:203-206 | Play is enabled iff there is media and the state is not playing. Pause is enabled iff it is playing. |
| Player.MediaPlayerWidget.SetState | src/presentation/view/player.py:139-140 | A playback-state change that re-runs `update_buttons` keeps the buttons current. |
| Player.MediaPlayerWidget.EnsureStopped | src/presentation/view/player.py:184-186 | Afterwards the player is stopped and the invariant holds. |
| Player.MediaPlayerWidget.PlayClicked | src/presentation/view/player.py:96 | Clicking the enabled Play button starts the loaded source and swaps the buttons. |
| Player.MediaPlayerWidget.PauseClicked | src/presentation/view/player.py:105 | Clicking the enabled Pause button pauses and re-enables Play. |
| Player.MediaPlayerWidget.Open | src/presentation/view/player.py:167-181 | Stops playback. An accepted choice is appended, becomes the current index and source, and plays; earlier entries are unchanged. A cancelled dialog leaves the playlist as it was. Position, label and slider are not touched. |
| Player.MediaPlayerWidget.LoadTrack | src/presentation/view/player.py:192 | `setSource` of a playlist entry makes it current and stops the player, which re-enables Play and disables Pause. |
| Player.MediaPlayerWidget.PreviousClicked | src/presentation/view/player.py:189-194 | Within 5000 ms of the start and past the first track, it steps back and loads that track, which stops the player. Otherwise it keeps the track and the playback state and sets the position to 0. |
| Player.MediaPlayerWidget.NextClicked | src/presentation/view/player.py:197-200 | Advances and loads the next track, which stops the player, unless on the last one. Otherwise, including on an empty playlist, nothing changes. |
| Player.MediaPlayerWidget.UpdatePosition | src/presentation/view/player.py:147-154 | With a positive duration, moves the slider and shows "position / duration" as mm:ss. Otherwise nothing changes. |
| Player.MediaPlayerWidget.UpdateDuration | src/presentation/view/player.py:157-159 | The slider ranges over the new duration. |
| Player.MediaPlayerWidget.PositionChanged | src/presentation/view/player.py:143 | A position report moves the slider and updates the label through `_update_position` when the duration is positive, leaves both otherwise, and keeps the invariant. |
| Player.MediaPlayerWidget.DurationChanged | src/presentation/view/player.py:144 | A duration report updates the slider range and keeps the invariant. |
| Text.Lower | src/presentation/view/media_player_main.py:18-21 | The lower-cased string has the same length, and each character is mapped by `LowerChar`, which lower-cases 'A'..'Z' and keeps every other character. |
| MediaPlayerMain.IsDefault | src/presentation/view/media_player_main.py:21 | A key names the default style iff it has the default name's length and lower-cases character by character to it. |
| MediaPlayerMain.StyleNames | src/presentation/view/media_player_main.py:16-25 | The loop builds exactly `StyleOrder` of the keys: the default keys reversed, then the others. The result is a permutation of the keys. |
| MediaPlayerMain.StyleOrderSnoc | src/presentation/view/media_player_main.py:21-24 | One more key goes to the front if it names the default style, and to the back otherwise. |
| MediaPlayerMain.StyleOrderPermutation | src/presentation/view/media_player_main.py:19-25 | Every key appears exactly as often as in the input, and the length is kept. |
| MediaPlayerMain.StyleOrderDefaultsFirst | src/presentation/view/media_player_main.py:20-24 | The default keys come first, in reverse input order. All other keys follow, in input order. |
| MediaPlayerMain.StyleOrderSingleDefault | src/presentation/view/media_player_main.py:17-24 | A single matching key moves to the front; the rest keep their order. |
| MediaPlayerMain.StyleOrderNoDefault | src/presentation/view/media_player_main.py:23-24 | With no matching key, the order is unchanged. |
| MediaPlayerMain.FormatGeometry | src/presentation/view/media_player_main.py:27-33 | The string starts with the decimal width followed by 'x', and starts with '-' exactly when the width is negative. |
| MediaPlayerMain.GeometryRoundTrip | src/presentation/view/media_player_main.py:27-33 | The string parses as a geometry back to the same width, height, x and y iff width and height are non-negative. Otherwise it is not a geometry. |
| MediaPlayerMain.FormatGeometryNonNegative | src/presentation/view/media_player_main.py:29-33 | With non-negative width and height, the string reads back to the rectangle. |
| MediaPlayerMain.FormatGeometryNegativeWidth | src/presentation/view/media_player_main.py:29-33 | A negative width makes the string start with '-', which is not a geometry. |
| MediaPlayerMain.FormatGeometryNegativeHeight | src/presentation/view/media_player_main.py:29-33 | A negative height puts '-' after the 'x', which is not a geometry. |
| MediaPlayerMain.GeometryExample | src/presentation/view/media_player_main.py:33 | A 1920x1080 screen at (-1920, 0) is written "1920x1080-1920+0". |

## Left out

- Threads: `QThread` scheduling and cross-thread delivery of signals are not modelled. `RunWorker` delivers one run's signals in emission order, after the run.
- The Whisper model (`whisper.load_model`, `model.transcribe`) is the `engine` parameter.
- `datetime.now()` is the `now` parameter.
- File writes are updates of a `map` from path to contents; I/O errors are not modelled.
- `self.worker.log(...)` at src/infrastructure/audio_to_text.py:44 calls a signal object as a function and would raise. No run reaches it, because `finished` is not connected to `save_results` there. `AudioToText.AudioText.SaveResults` omits the call.
- `update_log("Processing audio...")` at whisper-gui/src/presentation/main_window.py:61 runs inside the task, on the worker thread. `AudioToText.ProcessFile` models the task without it.
- The `try`/`except` that logs set-up failures of `start_task` (src/infrastructure/audio_to_text.py:57-69) is not modelled. So is the failed `connect` when no log callback was given.
- `AudioToText.TaskFunction` fails with its own message when called with other than one argument. `start_task` always passes exactly one, so that message never reaches a user.
- `MainWindow.MainWindow.StartTask`: the task-function parameter of `start_task` is fixed to `process_file`, the only function `load_file` passes.
- `MainWindow.MainWindow.SaveResults`: the text edit is modelled as its list of paragraphs, `[]` being the empty document. A line break inside a message or transcript, which Qt splits into further paragraphs, and rich text are not modelled.
- `TranscriptNames.Stamp`: `%Y` is written as four zero-padded digits. A C library that does not pad years below 1000 would differ.
- `TranscriptNames.Timestamp`: validity checks the day only against 1..31, not against the month's length.
- `Text.Lower` lower-cases ASCII letters only. Python's `str.lower` also maps other Unicode letters.
- Qt widget behaviour is not modelled: the position slider clamping a value to its range, icons, layouts, the title label ("Now Playing: " with `url.fileName()`), and the movies-directory default of the dialog.
- `QMediaPlayer` is reduced to its source, position, duration and playback state. `stop`, `play`, `pause` and `setSource` (which stops the player) change the state. Its other reactions are not modelled: resetting the position on `stop` or `setSource`, loading the media and reporting a new duration, and emitting `positionChanged` after `setPosition`. `Player.MediaPlayerWidget.PreviousClicked` therefore records the restart as position 0 directly, and the loading branches of it and of `Player.MediaPlayerWidget.NextClicked` keep the old position.
- `_set_position` (the slider-moved slot) and `_player_error` (a print to standard error) are not modelled.
- The volume slider wiring is not modelled: it feeds 0 to 100 into a floating-point setter.
- `screen_info` (src/presentation/view/media_player_main.py:35-54) depends on Qt screen queries and formats a floating-point pixel ratio. It is not modelled.
- `MediaPlayerMain.GeometryRoundTrip`: the parser reads the `-` offset as a negative number. In X11, a `-` offset is a distance from the right or bottom edge; that reading is not modelled.
- `MediaPlayerMain` dialog construction, `change_style` and `create_media_player_groupbox` are UI set-up and are not modelled.
- src/presentation/view/audio_text_controls.py and src/main.py are UI glue and the entry point; they are not part of this model.
