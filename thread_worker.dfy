/** The background worker: it records its task function and arguments when
    constructed, and `run` emits a fixed sequence of signals around one call
    of the task. The thread that runs it is not modelled; `emitted` is the
    order in which `run` emits its signals. The two copies of the worker in
    the repository differ only in comments and are both modelled here. */
module ThreadWorker {

  import opened Optional

  /** What one call of the task function does: return a value or raise an
      exception whose `str` is `message`. */
  datatype Outcome<+R> = Ok(value: R) | Fail(message: string)

  /** The four signals of the worker, with their payloads. */
  datatype Event<+R> =
    | Log(message: string)
    | Progress(percent: int)
    | Finished(result: R)
    | Error(message: string)

  const TaskStarted: string := "Task started..."
  const TaskCompleted: string := "Task completed successfully!"
  const ErrorPrefix: string := "Error during task execution: "

  /** `args or ()`: an absent or empty argument tuple becomes the empty one. */
  function NormalizeArgs<A>(args: Option<seq<A>>): (r: seq<A>)
    ensures |r| == 0 <==> args.None? || |args.value| == 0
    ensures |r| > 0 ==> args == Some(r)
  {
    if args.None? then [] else args.value
  }

  /** The signals `run` emits, in order, when the task has the given outcome. */
  function Emissions<R>(outcome: Outcome<R>): (r: seq<Event<R>>)
    ensures |r| >= 2 && r[0] == Log(TaskStarted)
    ensures outcome.Ok? ==> r[1..] == [Finished(outcome.value), Log(TaskCompleted)]
    ensures outcome.Fail? ==> r[1..] == [Error(ErrorPrefix + outcome.message)]
  {
    match outcome
    case Ok(results) => [Log(TaskStarted), Finished(results), Log(TaskCompleted)]
    case Fail(message) => [Log(TaskStarted), Error(ErrorPrefix + message)]
  }

  function CountFinished<R>(trace: seq<Event<R>>): nat {
    if trace == [] then 0 else CountFinished(trace[..|trace| - 1]) + (if trace[|trace| - 1].Finished? then 1 else 0)
  }

  function CountErrors<R>(trace: seq<Event<R>>): nat {
    if trace == [] then 0 else CountErrors(trace[..|trace| - 1]) + (if trace[|trace| - 1].Error? then 1 else 0)
  }

  lemma {:induction false} CountsOfAppend<R>(a: seq<Event<R>>, b: seq<Event<R>>)
    ensures CountFinished(a + b) == CountFinished(a) + CountFinished(b)
    ensures CountErrors(a + b) == CountErrors(a) + CountErrors(b)
    decreases |b|
  {
    if b != [] {
      assert (a + b)[..|a + b| - 1] == a + b[..|b| - 1];
      CountsOfAppend(a, b[..|b| - 1]);
    } else {
      assert a + b == a;
    }
  }

  lemma CountsOfSingle<R>(e: Event<R>)
    ensures CountFinished([e]) == (if e.Finished? then 1 else 0)
    ensures CountErrors([e]) == (if e.Error? then 1 else 0)
  {
    assert [e][..0] == [];
  }

  /** A run never reports progress. */
  lemma EmissionsNoProgress<R>(outcome: Outcome<R>)
    ensures forall i :: 0 <= i < |Emissions(outcome)| ==> !Emissions(outcome)[i].Progress?
  {
  }

  /** A run ends in exactly one terminal signal: `finished` or `error`. */
  lemma {:induction false} EmissionsOneTerminal<R>(outcome: Outcome<R>)
    ensures CountFinished(Emissions(outcome)) + CountErrors(Emissions(outcome)) == 1
    ensures CountFinished(Emissions(outcome)) == 1 <==> outcome.Ok?
    ensures CountErrors(Emissions(outcome)) == 1 <==> outcome.Fail?
  {
    match outcome
    case Ok(r) =>
      CountsOfSingle<R>(Log(TaskStarted));
      CountsOfSingle(Finished(r));
      CountsOfSingle<R>(Log(TaskCompleted));
      CountsOfAppend<R>([Log(TaskStarted)], [Finished(r)]);
      CountsOfAppend<R>([Log(TaskStarted), Finished(r)], [Log(TaskCompleted)]);
      assert [Log(TaskStarted)] + [Finished(r)] == [Log(TaskStarted), Finished(r)];
      assert [Log(TaskStarted), Finished(r)] + [Log(TaskCompleted)] == Emissions(outcome);
    case Fail(m) =>
      CountsOfSingle<R>(Log(TaskStarted));
      CountsOfSingle<R>(Error(ErrorPrefix + m));
      CountsOfAppend<R>([Log(TaskStarted)], [Error(ErrorPrefix + m)]);
      assert [Log(TaskStarted)] + [Error(ErrorPrefix + m)] == Emissions(outcome);
  }

  /** A task that returns `r`: `finished(r)` comes right after the start log,
      the completion log ends the run, and no `error` is emitted. */
  lemma EmissionsOnSuccess<R>(r: R)
    ensures Emissions(Ok(r))[1] == Finished(r)
    ensures Emissions(Ok(r))[|Emissions(Ok(r))| - 1] == Log(TaskCompleted)
    ensures forall e :: e in Emissions(Ok(r)) ==> !e.Error?
  {
  }

  /** A task that raises with message `m`: the only signal after the start
      log is the prefixed `error`; no `finished` and no completion log. */
  lemma EmissionsOnFailure<R>(m: string)
    ensures forall e :: e in Emissions<R>(Fail(m)) ==> !e.Finished? && e != Log(TaskCompleted)
  {
  }

  class ThreadWorker<A, R> {
    const taskFunction: seq<A> -> Outcome<R>
    const args: seq<A>
    /** The signals emitted so far, oldest first. */
    var emitted: seq<Event<R>>

    constructor (taskFunction: seq<A> -> Outcome<R>, args: Option<seq<A>>)
      ensures this.taskFunction == taskFunction && this.args == NormalizeArgs(args)
      ensures emitted == []
    {
      this.taskFunction := taskFunction;
      this.args := NormalizeArgs(args);
      emitted := [];
    }

    method Emit(e: Event<R>)
      modifies this
      ensures emitted == old(emitted) + [e]
    {
      emitted := emitted + [e];
    }

    /** Calls the task with exactly the stored arguments and emits the
        start log, then either `finished` and the completion log or `error`. */
    method Run()
      modifies this
      ensures emitted == old(emitted) + Emissions(taskFunction(args))
    {
      Emit(Log(TaskStarted));
      var outcome := taskFunction(args);
      match outcome {
        case Ok(results) =>
          Emit(Finished(results));
          Emit(Log(TaskCompleted));
        case Fail(e) =>
          Emit(Error(ErrorPrefix + e));
      }
    }
  }
}
