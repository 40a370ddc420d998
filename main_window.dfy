/** The main window of the `whisper-gui` application: a text edit used as a
    log, a progress bar, and one worker handle. Its `finished` signal goes to
    `save_results`, which writes the transcript and shows it. The text edit
    is modelled as its list of paragraphs; the empty document is `[]`. */
module MainWindow {

  import opened Optional
  import opened ThreadWorker
  import opened TranscriptNames
  import AudioToText

  const LoadingFile: string := "Loading file..."
  const StartingTask: string := "Starting task..."
  const SavedPrefix: string := "Results saved to "
  const ErrorLogPrefix: string := AudioToText.ErrorLogPrefix
  /** A new `QProgressBar` shows no progress: its value is one below the minimum. */
  const NoProgress: int := -1
  const ProgressMinimum: int := 0
  const ProgressMaximum: int := 100

  /** The paragraphs `setPlainText(t)` leaves: none for the empty string. */
  function Document(t: string): (r: seq<string>)
    ensures |r| <= 1 && (r == [] <==> t == "")
    ensures r != [""]
  {
    if t == "" then [] else [t]
  }

  /** `QTextEdit.append(m)`: on an empty document the text goes into the
      existing block, otherwise it starts a new paragraph. */
  function Append(text: seq<string>, m: string): (r: seq<string>)
    ensures text <= r && |r| <= |text| + 1
    ensures text != [] ==> r == text + [m]
    ensures text == [] ==> r == Document(m)
    ensures text != [""] ==> r != [""]
  {
    if text == [] then Document(m) else text + [m]
  }

  /** `QProgressBar.setValue(p)`: a value outside the range is ignored. */
  function SetValue(progress: int, p: int): (r: int)
    ensures ProgressMinimum <= p <= ProgressMaximum ==> r == p
    ensures !(ProgressMinimum <= p <= ProgressMaximum) ==> r == progress
    ensures progress == NoProgress || ProgressMinimum <= progress <= ProgressMaximum ==>
      r == NoProgress || ProgressMinimum <= r <= ProgressMaximum
  {
    if ProgressMinimum <= p <= ProgressMaximum then p else progress
  }

  /** What the window holds at one moment. */
  datatype WindowView = WindowView(
    hasWorker: bool,
    text: seq<string>,
    progress: int,
    files: map<string, string>)

  /** The effect of one worker signal through the connections made in
      `start_task`; `now` is the clock reading `save_results` takes. */
  function Step(v: WindowView, e: Event<AudioToText.Transcript>, now: Timestamp): (r: WindowView)
    requires now.Valid()
    ensures r.hasWorker == (v.hasWorker && !e.Error?)
    ensures r.files == if e.Finished? then v.files[OutputName(e.result.0, now) := e.result.1] else v.files
    ensures !e.Progress? ==> r.progress == v.progress
  {
    match e
    case Log(m) => v.(text := Append(v.text, m))
    case Progress(p) => v.(progress := SetValue(v.progress, p))
    case Finished(r) =>
      // the "Results saved to" line is appended, then replaced by the transcript
      v.(files := v.files[OutputName(r.0, now) := r.1], text := Document(r.1))
    case Error(m) => v.(text := Append(v.text, ErrorLogPrefix + m), hasWorker := false)
  }

  function Steps(v: WindowView, events: seq<Event<AudioToText.Transcript>>, now: Timestamp): (r: WindowView)
    requires now.Valid()
    ensures r.hasWorker ==> v.hasWorker
    ensures v.files.Keys <= r.files.Keys
    ensures v.progress == NoProgress || ProgressMinimum <= v.progress <= ProgressMaximum ==>
      r.progress == NoProgress || ProgressMinimum <= r.progress <= ProgressMaximum
  {
    if events == [] then v else Step(Steps(v, events[..|events| - 1], now), events[|events| - 1], now)
  }

  lemma StepsSnoc(v: WindowView, events: seq<Event<AudioToText.Transcript>>, i: nat, now: Timestamp)
    requires i < |events| && now.Valid()
    ensures Steps(v, events[..i + 1], now) == Step(Steps(v, events[..i], now), events[i], now)
  {
    assert events[..i + 1][..i] == events[..i];
  }

  /** Over any sequence of signals the worker handle survives exactly when
      no `error` is among them; no signal sets it. */
  lemma {:induction false} OnlyErrorClears(v: WindowView, events: seq<Event<AudioToText.Transcript>>, now: Timestamp)
    requires now.Valid()
    ensures (forall k :: 0 <= k < |events| ==> !events[k].Error?) ==> Steps(v, events, now).hasWorker == v.hasWorker
    ensures (exists k :: 0 <= k < |events| && events[k].Error?) ==> !Steps(v, events, now).hasWorker
  {
    if events != [] {
      var front, last := events[..|events| - 1], events[|events| - 1];
      var before := Steps(v, front, now);
      assert Steps(v, events, now) == Step(before, last, now);
      assert Step(before, last, now).hasWorker == (before.hasWorker && !last.Error?);
      OnlyErrorClears(v, front, now);
      if forall k :: 0 <= k < |events| ==> !events[k].Error? {
        forall k | 0 <= k < |front| ensures !front[k].Error? {
          assert front[k] == events[k];
        }
      }
      if exists k :: 0 <= k < |events| && events[k].Error? {
        var k :| 0 <= k < |events| && events[k].Error?;
        if k < |front| {
          assert front[k] == events[k];
        }
      }
    }
  }

  /** A successful run saves the transcript under its timestamped name and
      leaves the text edit holding the transcript and then the completion
      log (only the log, for an empty transcript); the worker handle is not
      cleared and the progress is unchanged. */
  lemma RunSucceeds(v: WindowView, r: AudioToText.Transcript, now: Timestamp)
    requires now.Valid()
    ensures Steps(v, Emissions(Ok(r)), now) ==
            v.(text := if r.1 == "" then [TaskCompleted] else [r.1, TaskCompleted],
               files := v.files[OutputName(r.0, now) := r.1])
  {
    var es: seq<Event<AudioToText.Transcript>> := Emissions(Ok(r));
    var first2: seq<Event<AudioToText.Transcript>> := es[..2];
    var first1: seq<Event<AudioToText.Transcript>> := first2[..1];
    assert first2 == [Log(TaskStarted), Finished(r)];
    assert first1 == [Log(TaskStarted)];
    assert Steps(v, first1[..0], now) == v;
    var v1 := Steps(v, first1, now);
    assert v1 == v.(text := v.text + [TaskStarted]);
    var v2 := Steps(v, first2, now);
    assert v2 == v.(files := v.files[OutputName(r.0, now) := r.1], text := Document(r.1));
    assert Steps(v, es, now) == Step(v2, Log(TaskCompleted), now);
  }

  /** A failed run logs the prefixed error, clears the handle and writes nothing. */
  lemma RunFails(v: WindowView, m: string, now: Timestamp)
    requires now.Valid()
    ensures Steps(v, Emissions(Fail(m)), now) ==
            v.(text := v.text + [TaskStarted, ErrorLogPrefix + ErrorPrefix + m], hasWorker := false)
  {
    var es: seq<Event<AudioToText.Transcript>> := Emissions(Fail(m));
    var first1: seq<Event<AudioToText.Transcript>> := es[..1];
    assert first1 == [Log(TaskStarted)];
    assert Steps(v, first1[..0], now) == v;
    var v1 := Steps(v, first1, now);
    assert v1 == v.(text := v.text + [TaskStarted]);
    assert es[..|es| - 1] == first1 && es[|es| - 1] == Error(ErrorPrefix + m);
    assert ErrorLogPrefix + (ErrorPrefix + m) == ErrorLogPrefix + ErrorPrefix + m;
  }

  /** The whole effect of the task `start_task` sets up for `fileName`: on
      success the saved file holds exactly the engine's text and so does the
      text edit, before the completion log; on failure nothing is written. */
  lemma TranscriptionOutcome(v: WindowView, engine: AudioToText.Engine, fileName: string, now: Timestamp)
    requires now.Valid()
    ensures engine(fileName).Ok? ==>
      var after := Steps(v, Emissions(AudioToText.TaskFunction(engine, [fileName])), now);
      && OutputName(fileName, now) in after.files
      && after.files[OutputName(fileName, now)] == engine(fileName).value
      && after.text == (if engine(fileName).value == "" then [TaskCompleted] else [engine(fileName).value, TaskCompleted])
      && after.hasWorker == v.hasWorker
    ensures engine(fileName).Fail? ==>
      Steps(v, Emissions(AudioToText.TaskFunction(engine, [fileName])), now) ==
      v.(text := v.text + [TaskStarted, ErrorLogPrefix + ErrorPrefix + engine(fileName).message], hasWorker := false)
  {
    match engine(fileName)
    case Ok(text) => RunSucceeds(v, (fileName, text), now);
    case Fail(m) => RunFails(v, m, now);
  }

  class MainWindow {
    const engine: AudioToText.Engine
    var worker: ThreadWorker?<string, AudioToText.Transcript>
    /** The paragraphs of the text edit. */
    var text: seq<string>
    var progress: int
    /** The file system: path to contents. */
    var files: map<string, string>

    function View(): WindowView
      reads this
    {
      WindowView(worker != null, text, progress, files)
    }

    constructor (engine: AudioToText.Engine)
      ensures this.engine == engine && worker == null
      ensures text == [] && progress == NoProgress && files == map[]
    {
      this.engine := engine;
      worker := null;
      text, progress, files := [], NoProgress, map[];
    }

    /** Appends one paragraph; earlier paragraphs are unchanged. */
    method UpdateLog(message: string)
      modifies this`text
      ensures text == Append(old(text), message)
      ensures old(text) <= text && (message != "" ==> text == old(text) + [message])
    {
      if text == [] {
        text := if message == "" then [] else [message];
      } else {
        text := text + [message];
      }
    }

    /** Shows `value` when it lies in 0..100; otherwise the bar keeps its value. */
    method UpdateProgressBar(value: int)
      modifies this`progress
      ensures progress == SetValue(old(progress), value)
      ensures 0 <= value <= 100 ==> progress == value
    {
      if ProgressMinimum <= value <= ProgressMaximum {
        progress := value;
      }
    }

    /** `fileName` is what the open-file dialog returned, "" when cancelled:
        only a non-empty name logs "Loading file..." and starts a task. */
    method LoadFile(fileName: string)
      modifies this`text, this`progress, this`worker
      ensures fileName == "" ==> text == old(text) && progress == old(progress) && worker == old(worker)
      ensures fileName != "" ==>
        && text == old(text) + [LoadingFile, StartingTask] && progress == 0
        && worker != null && fresh(worker) && worker.args == [fileName] && worker.emitted == []
        && worker.taskFunction(worker.args) == AudioToText.ProcessFile(engine, fileName)
    {
      if fileName != "" {
        UpdateLog(LoadingFile);
        StartTask(fileName);
      }
    }

    /** Logs "Starting task...", resets the progress bar and replaces the
        worker handle, whatever it held, by a fresh worker for one argument. */
    method StartTask(fileName: string)
      modifies this`text, this`progress, this`worker
      ensures text == old(text) + [StartingTask] && progress == 0
      ensures worker != null && fresh(worker) && worker.args == [fileName] && worker.emitted == []
      ensures worker.taskFunction(worker.args) == AudioToText.ProcessFile(engine, fileName)
    {
      UpdateLog(StartingTask);
      UpdateProgressBar(0);
      var e := engine;
      worker := new ThreadWorker((args: seq<string>) => AudioToText.TaskFunction(e, args), Some([fileName]));
    }

    /** Writes the transcript verbatim to its timestamped path, logs the path,
        and then shows exactly the transcript. */
    method SaveResults(resultData: AudioToText.Transcript, now: Timestamp)
      requires now.Valid()
      modifies this`files, this`text
      ensures files == old(files)[OutputName(resultData.0, now) := resultData.1]
      ensures text == Document(resultData.1)
      ensures resultData.1 != "" ==> text == [resultData.1]
    {
      var (fileName, resultText) := resultData;
      var textFileName := OutputName(fileName, now);
      files := files[textFileName := resultText];
      UpdateLog(SavedPrefix + textFileName);
      text := if resultText == "" then [] else [resultText];
    }

    /** Logs "Error: " + message and drops the worker handle. */
    method TaskError(errorMessage: string)
      modifies this`text, this`worker
      ensures text == old(text) + [ErrorLogPrefix + errorMessage] && worker == null
    {
      UpdateLog(ErrorLogPrefix + errorMessage);
      worker := null;
    }

    /** Delivers one signal of the worker to the slot it is connected to. */
    method Deliver(e: Event<AudioToText.Transcript>, now: Timestamp)
      requires now.Valid()
      modifies this
      ensures View() == Step(old(View()), e, now)
      ensures worker == null || worker == old(worker)
    {
      match e {
        case Log(m) => UpdateLog(m);
        case Progress(p) => UpdateProgressBar(p);
        case Finished(r) => SaveResults(r, now);
        case Error(m) => TaskError(m);
      }
    }

    /** Runs the current worker and delivers its signals in emission order. */
    method RunWorker(now: Timestamp)
      requires worker != null && now.Valid()
      modifies this, worker
      ensures old(worker).emitted == old(worker.emitted) + Emissions(old(worker).taskFunction(old(worker).args))
      ensures View() == Steps(old(View()), Emissions(old(worker).taskFunction(old(worker).args)), now)
      ensures worker == null || worker == old(worker)
    {
      var w := worker;
      var before := |w.emitted|;
      w.Run();
      var events := w.emitted[before..];
      assert events == Emissions(w.taskFunction(w.args));
      ghost var start := View();
      var i := 0;
      while i < |events|
        invariant 0 <= i <= |events|
        invariant View() == Steps(start, events[..i], now)
        invariant worker == null || worker == w
        invariant w.emitted == old(w.emitted) + events
      {
        Deliver(events[i], now);
        StepsSnoc(start, events, i, now);
        i := i + 1;
      }
      assert events[..i] == events;
    }
  }
}
