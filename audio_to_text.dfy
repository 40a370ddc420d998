/** The transcription controller of the `src` application: it starts a
    worker around `process_file`, forwards the worker's log and result
    signals to the callbacks it was given, and clears its worker handle on
    an error. The Whisper model is the `engine` parameter; the two callbacks
    are modelled by the sequences of what they received. */
module AudioToText {

  import opened Optional
  import opened ThreadWorker
  import opened TranscriptNames

  /** `model.transcribe(audio=path)["text"]`, or the exception it raises. */
  type Engine = string -> Outcome<string>

  /** A transcribed file: the source path and the transcript text. */
  type Transcript = (string, string)

  const ErrorLogPrefix: string := "Error: "
  const ArityMessage: string := "process_file() takes exactly one argument"

  /** `process_file`: the source path, unchanged, paired with the engine's text;
      an engine failure propagates with its message. */
  function ProcessFile(engine: Engine, fileName: string): (r: Outcome<Transcript>)
    ensures r.Ok? <==> engine(fileName).Ok?
    ensures r.Ok? ==> r.value.0 == fileName && r.value.1 == engine(fileName).value
    ensures r.Fail? ==> r.message == engine(fileName).message
  {
    match engine(fileName)
    case Ok(text) => Ok((fileName, text))
    case Fail(m) => Fail(m)
  }

  /** `process_file(*args)` as the worker calls it. */
  function TaskFunction(engine: Engine, args: seq<string>): (r: Outcome<Transcript>)
    ensures r.Ok? ==> |args| == 1 && engine(args[0]).Ok? && r.value == (args[0], engine(args[0]).value)
    ensures |args| == 1 ==> (r.Ok? <==> engine(args[0]).Ok?)
  {
    if |args| == 1 then ProcessFile(engine, args[0]) else Fail(ArityMessage)
  }

  /** What the controller and its callbacks hold at one moment. */
  datatype SessionView = SessionView(
    hasWorker: bool,
    log: seq<string>,
    results: seq<Transcript>,
    files: map<string, string>)

  /** The effect of one worker signal through the connections made in
      `start_task`: `log` to the log callback, `finished` to the result
      callback, `error` to `task_error`; `progress` is not connected. */
  function Step(v: SessionView, e: Event<Transcript>): (r: SessionView)
    ensures r.files == v.files && v.log <= r.log && |r.log| <= |v.log| + 1
    ensures r.hasWorker == (v.hasWorker && !e.Error?)
    ensures r.results == if e.Finished? then v.results + [e.result] else v.results
  {
    match e
    case Log(m) => v.(log := v.log + [m])
    case Progress(_) => v
    case Finished(r) => v.(results := v.results + [r])
    case Error(m) =>
      // without a worker, `self.worker.log` raises and nothing changes
      if v.hasWorker then v.(log := v.log + [ErrorLogPrefix + m], hasWorker := false) else v
  }

  function Steps(v: SessionView, events: seq<Event<Transcript>>): (r: SessionView)
    ensures r.files == v.files && v.log <= r.log && v.results <= r.results
    ensures r.hasWorker ==> v.hasWorker
  {
    if events == [] then v else Step(Steps(v, events[..|events| - 1]), events[|events| - 1])
  }

  /** A successful run reaches the result callback with the transcript; the
      worker handle stays set and no file is written. */
  lemma RunSucceeds(v: SessionView, r: Transcript)
    ensures Steps(v, Emissions(Ok(r))) == v.(log := v.log + [TaskStarted, TaskCompleted], results := v.results + [r])
  {
    var es: seq<Event<Transcript>> := Emissions(Ok(r));
    var first2: seq<Event<Transcript>> := es[..2];
    var first1: seq<Event<Transcript>> := first2[..1];
    assert first2 == [Log(TaskStarted), Finished(r)];
    assert first1 == [Log(TaskStarted)];
    assert first1[..0] == [];
    assert Steps(v, first1[..0]) == v;
    assert first1[|first1| - 1] == Log(TaskStarted);
    var v1 := Steps(v, first1);
    assert v1 == v.(log := v.log + [TaskStarted]);
    var v2 := Steps(v, first2);
    assert v2 == v1.(results := v.results + [r]);
    assert Steps(v, es) == Step(v2, Log(TaskCompleted));
  }

  /** A failed run logs the prefixed error once and clears the worker handle;
      the result callback is not called and no file is written. */
  lemma RunFails(v: SessionView, m: string)
    requires v.hasWorker
    ensures Steps(v, Emissions(Fail(m))) ==
            v.(log := v.log + [TaskStarted, ErrorLogPrefix + ErrorPrefix + m], hasWorker := false)
  {
    var es: seq<Event<Transcript>> := Emissions(Fail(m));
    var first1: seq<Event<Transcript>> := es[..1];
    assert first1 == [Log(TaskStarted)];
    assert first1[..0] == [];
    assert Steps(v, first1[..0]) == v;
    assert first1[|first1| - 1] == Log(TaskStarted);
    var v1 := Steps(v, first1);
    assert v1 == v.(log := v.log + [TaskStarted]);
    assert es[..|es| - 1] == first1 && es[|es| - 1] == Error(ErrorPrefix + m);
    assert Steps(v, es) == Step(v1, Error(ErrorPrefix + m));
    assert ErrorLogPrefix + (ErrorPrefix + m) == ErrorLogPrefix + ErrorPrefix + m;
    assert v.log + [TaskStarted] + [ErrorLogPrefix + ErrorPrefix + m] == v.log + [TaskStarted, ErrorLogPrefix + ErrorPrefix + m];
  }

  /** The whole effect of the task `start_task` sets up for `fileName`: the
      transcript reaches the result callback, or the engine's message is
      logged behind both prefixes and the handle is dropped. */
  lemma TranscriptionOutcome(v: SessionView, engine: Engine, fileName: string)
    requires v.hasWorker
    ensures engine(fileName).Ok? ==>
      Steps(v, Emissions(TaskFunction(engine, [fileName]))) ==
      v.(log := v.log + [TaskStarted, TaskCompleted], results := v.results + [(fileName, engine(fileName).value)])
    ensures engine(fileName).Fail? ==>
      Steps(v, Emissions(TaskFunction(engine, [fileName]))) ==
      v.(log := v.log + [TaskStarted, ErrorLogPrefix + ErrorPrefix + engine(fileName).message], hasWorker := false)
  {
    match engine(fileName)
    case Ok(text) => RunSucceeds(v, (fileName, text));
    case Fail(m) => RunFails(v, m);
  }

  class AudioText {
    const engine: Engine
    var worker: ThreadWorker?<string, Transcript>
    /** Messages received by the log callback. */
    var log: seq<string>
    /** Values received by the result callback. */
    var results: seq<Transcript>
    /** The file system: path to contents. */
    var files: map<string, string>

    function View(): SessionView
      reads this
    {
      SessionView(worker != null, log, results, files)
    }

    constructor (engine: Engine)
      ensures this.engine == engine && worker == null
      ensures log == [] && results == [] && files == map[]
    {
      this.engine := engine;
      worker := null;
      log, results, files := [], [], map[];
    }

    /** Writes the transcript verbatim to its timestamped path, replacing any
        earlier contents, and returns that path with the text. */
    method SaveResults(resultData: Transcript, now: Timestamp) returns (saved: (string, string))
      requires now.Valid()
      modifies this`files
      ensures saved == (OutputName(resultData.0, now), resultData.1)
      ensures files == old(files)[saved.0 := resultData.1]
      ensures saved.0 in files && files[saved.0] == resultData.1
    {
      var (fileName, resultText) := resultData;
      var textFileName := OutputName(fileName, now);
      files := files[textFileName := resultText];
      saved := (textFileName, resultText);
    }

    /** Replaces the worker handle, whatever it held, with a fresh worker whose
        task is `process_file` applied to the one argument `fileName`. */
    method StartTask(fileName: string)
      modifies this`worker
      ensures worker != null && fresh(worker)
      ensures worker.args == [fileName] && worker.emitted == []
      ensures worker.taskFunction(worker.args) == ProcessFile(engine, fileName)
    {
      var e := engine;
      worker := new ThreadWorker((args: seq<string>) => TaskFunction(e, args), Some([fileName]));
    }

    /** Logs "Error: " + message through the worker and drops the handle; with
        no worker the attribute lookup fails and nothing changes. */
    method TaskError(errorMessage: string)
      modifies this`log, this`worker
      ensures old(worker) != null ==> log == old(log) + [ErrorLogPrefix + errorMessage] && worker == null
      ensures old(worker) == null ==> log == old(log) && worker == null
    {
      if worker != null {
        log := log + [ErrorLogPrefix + errorMessage];
        worker := null;
      }
    }

    /** Delivers one signal of the worker to the slot it is connected to. */
    method Deliver(e: Event<Transcript>)
      modifies this
      ensures View() == Step(old(View()), e)
      ensures worker == null || worker == old(worker)
    {
      match e {
        case Log(m) => log := log + [m];
        case Progress(_) =>
        case Finished(r) => results := results + [r];
        case Error(m) => TaskError(m);
      }
    }

    /** Runs the current worker and delivers its signals in emission order. */
    method RunWorker()
      requires worker != null
      modifies this, worker
      ensures old(worker).emitted == old(worker.emitted) + Emissions(old(worker).taskFunction(old(worker).args))
      ensures View() == Steps(old(View()), Emissions(old(worker).taskFunction(old(worker).args)))
      ensures worker == null || worker == old(worker)
    {
      var w := worker;
      var before := |w.emitted|;
      w.Run();
      var events := w.emitted[before..];
      assert events == Emissions(w.taskFunction(w.args));
      ghost var start := View();
      var i := 0;
      while i < |events|
        invariant 0 <= i <= |events|
        invariant View() == Steps(start, events[..i])
        invariant worker == null || worker == w
        invariant w.emitted == old(w.emitted) + events
      {
        Deliver(events[i]);
        assert events[..i + 1][..i] == events[..i];
        i := i + 1;
      }
      assert events[..i] == events;
    }
  }
}
