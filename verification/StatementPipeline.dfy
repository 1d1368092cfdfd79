/**
 One statement row and the worker task that takes it from phase to phase. The AI service and
 every call that may raise are answers given from outside. `ChainStep` is one pass of the
 worker's loop; `ProcessStatementPipeline` is that loop with its handlers around it.
 */
module StatementPipeline {
  import opened Wrappers

  datatype Status = Uploaded | Extracted | Normalized | Approved

  datatype Phase = Extraction | Normalization

  const MAX_POLL_ATTEMPTS := 240

  datatype Row = Row(status: Status, processing: bool, failureReason: Option<string>, failedPhase: Option<Phase>,
                     ocrRows: nat, normalizedRows: nat, account: Option<nat>)

  const NewRow := Row(Uploaded, false, None, None, 0, 0, None)

  // A worker task's arguments: how far to go, the job being polled, and how often it was polled.
  datatype Task = Task(target: Status, job: Option<nat>, polls: nat)

  // ---------- What the outside answers ----------

  // `Malformed` stands for an answer whose use raises outside the call's own handler.
  datatype Submission = Submitted(job: nat) | SubmitRaises(reason: string) | SubmitMalformed(reason: string)

  datatype JobState =
    | Succeeded(resolvedAccount: nat)
    | JobFailed(error: string)
    | Pending
    | StatusRaises(reason: string)
    | StatusMalformed(reason: string)

  // Storing a phase's result may raise before the status is saved, with or without the result
  // row already written; normalization may also raise after it, while notifying the user.
  datatype Storing = Stored | RaisesBefore(reason: string, rowWritten: bool) | RaisesAfter(reason: string)

  // Rescheduling normally hands control back to the queue; it may instead raise something else.
  datatype Rescheduling = Rescheduled | RescheduleRaises(reason: string)

  datatype Answers = Answers(submission: Submission, job: JobState, storing: Storing, rescheduling: Rescheduling)

  // ---------- Status order ----------

  function Rank(s: Status): nat {
    match s
    case Uploaded => 0
    case Extracted => 1
    case Normalized => 2
    case Approved => 3
  }

  function PhaseFor(s: Status): Option<Phase> {
    match s
    case Uploaded => Some(Extraction)
    case Extracted => Some(Normalization)
    case Normalized => None
    case Approved => None
  }

  function After(p: Phase): Status {
    if p == Extraction then Extracted else Normalized
  }

  datatype AdvanceError = AlreadyApproved | AlreadyProcessing | InvalidTransition

  function ValidateAdvance(row: Row, target: Status): Result<nat, AdvanceError> {
    if row.status == Approved then Err(AlreadyApproved)
    else if row.processing then Err(AlreadyProcessing)
    else if Rank(target) <= Rank(row.status) then Err(InvalidTransition)
    else Ok(Rank(target))
  }

  // ---------- The writes to the row ----------

  function FailPhase(row: Row, phase: Phase, reason: string): Row {
    row.(failureReason := Some(reason), failedPhase := Some(phase), processing := false)
  }

  // The handler for everything no phase handles itself works on the row as re-read.
  function Crash(row: Row, reason: string): Row {
    row.(processing := false, failureReason := Some(reason),
         failedPhase := if row.failedPhase.Some? then row.failedPhase else PhaseFor(row.status))
  }

  function WithResult(row: Row, phase: Phase): Row {
    if phase == Extraction then row.(ocrRows := row.ocrRows + 1) else row.(normalizedRows := row.normalizedRows + 1)
  }

  function AccountOf(seen: Row, resolved: nat): nat {
    if seen.account.Some? then seen.account.value else resolved
  }

  // A finished phase; normalization keeps the account its task already saw, or takes the one
  // resolved from the statement.
  function Finalize(row: Row, seen: Row, phase: Phase, resolved: nat): Row {
    var done := WithResult(row, phase).(status := After(phase), failureReason := None, failedPhase := None,
                                        processing := false);
    if phase == Extraction then done else done.(account := Some(AccountOf(seen, resolved)))
  }

  // ---------- The chain of one request's tasks ----------

  // `base` is the status the task had seen when it was queued. `seen` is the copy of the row a
  // running task holds; the row itself may since have been written by others.
  datatype Where =
    | Queued(task: Task, base: Status)
    | Running(task: Task, seen: Row)
    | Ended(rescheduleFault: bool)

  // What a chain asked of the AI service: a submission, with the job it got if any, and a read of
  // a job's status.
  datatype Call = Submit(phase: Phase, submitted: Option<nat>) | Read(phase: Phase, job: nat)

  // `statusReads` counts the job status reads of the current phase, `events` the published events;
  // `calls` is the history of the calls.
  datatype Chain = Chain(at: Where, statusReads: nat, events: nat, calls: seq<Call>)

  function Called(c: Chain, call: Call): Chain {
    c.(calls := c.calls + [call])
  }

  function Publish(c: Chain): Chain {
    c.(at := Ended(false), events := c.events + 1)
  }

  predicate WorkLeft(task: Task, status: Status) {
    Rank(status) < Rank(task.target) && PhaseFor(status).Some?
  }

  // One pass of the loop, up to the next write: leave the loop, mark the row as processing, or
  // run the phase as far as the answers take it.
  function ChainStep(row: Row, c: Chain, answers: Answers): (Row, Chain)
    requires !c.at.Ended?
  {
    match c.at
    case Queued(task, _) => (row, c.(at := Running(task, row)))
    case Running(task, seen) =>
      if !WorkLeft(task, seen.status) then (row, Publish(c))
      else if !seen.processing then (row.(processing := true), c.(at := Running(task, seen.(processing := true))))
      else Work(row, c, PhaseFor(seen.status).value, answers)
  }

  function Work(row: Row, c: Chain, phase: Phase, answers: Answers): (Row, Chain)
    requires c.at.Running?
  {
    var task := c.at.task;
    if task.job.Some? then Poll(row, c, phase, task.job.value, answers)
    else
      match answers.submission
      case SubmitRaises(reason) => (FailPhase(row, phase, reason), Publish(Called(c, Submit(phase, None))))
      case SubmitMalformed(reason) => (Crash(row, reason), Publish(Called(c, Submit(phase, None))))
      case Submitted(job) => Poll(row, Called(c, Submit(phase, Some(job))), phase, job, answers)
  }

  // One read of the job's status and what follows from it.
  function Poll(row: Row, c: Chain, phase: Phase, job: nat, answers: Answers): (Row, Chain)
    requires c.at.Running?
  {
    var task, seen := c.at.task, c.at.seen;
    var polled := Called(c, Read(phase, job)).(statusReads := c.statusReads + 1);
    match answers.job
    case StatusRaises(reason) => (FailPhase(row, phase, reason), Publish(polled))
    case StatusMalformed(reason) => (Crash(row, reason), Publish(polled))
    case JobFailed(error) => (FailPhase(row, phase, FailureText(error)), Publish(polled))
    case Succeeded(resolved) =>
      var done := Finalize(row, seen, phase, resolved);
      if answers.storing.RaisesBefore?
      then (Crash(if answers.storing.rowWritten then WithResult(row, phase) else row, answers.storing.reason),
            Publish(polled))
      else if answers.storing.RaisesAfter? && phase == Normalization
      then (Crash(done, answers.storing.reason), Publish(polled))
      else
        var next := Running(Task(task.target, None, 0), Finalize(seen, seen, phase, resolved));
        (done, polled.(at := next, statusReads := 0))
    case Pending =>
      if task.polls >= MAX_POLL_ATTEMPTS then (FailPhase(row, phase, EXHAUSTED), Publish(polled))
      else if answers.rescheduling.RescheduleRaises?
      then (Crash(row, answers.rescheduling.reason), polled.(at := Ended(true)))
      else (row, polled.(at := Queued(Task(task.target, Some(job), task.polls + 1), seen.status)))
  }

  const EXHAUSTED := "AI service job did not complete within its polls"

  function FailureText(error: string): string {
    if error == "" then "AI service job failed" else error
  }

  // ---------- One task run with nothing beside it ----------

  // The answers in each of the two phases; a run passes through a phase at most once.
  datatype World = World(extraction: Answers, normalization: Answers)

  function AnswersAt(w: World, s: Status): Answers {
    if s == Uploaded then w.extraction else w.normalization
  }

  function LoopMeasure(seen: Row): nat {
    2 * (3 - Rank(seen.status)) + (if seen.processing then 0 else 1)
  }

  // From the loop on to a task's end: rescheduled or ended.
  function RunLoop(row: Row, c: Chain, w: World): (Row, Chain)
    requires c.at.Running?
    decreases LoopMeasure(c.at.seen)
  {
    var (row', c') := ChainStep(row, c, AnswersAt(w, c.at.seen.status));
    if c'.at.Running? then RunLoop(row', c', w) else (row', c')
  }

  class StatementFile {
    var status: Status
    var processing: bool
    var failureReason: Option<string>
    var failedPhase: Option<Phase>
    var ocrRows: nat
    var normalizedRows: nat
    var account: Option<nat>

    constructor ()
      ensures Value() == NewRow
    {
      status, processing, failureReason, failedPhase := Uploaded, false, None, None;
      ocrRows, normalizedRows, account := 0, 0, None;
    }

    function Value(): Row
      reads this
    {
      Row(status, processing, failureReason, failedPhase, ocrRows, normalizedRows, account)
    }

    // Guards, sets the processing flag and yields the first task to queue.
    method AdvanceTo(target: Status) returns (r: Result<Task, AdvanceError>)
      modifies this`processing
      ensures r.Ok? <==> ValidateAdvance(old(Value()), target).Ok?
      ensures r.Ok? ==> Value() == old(Value()).(processing := true) && r.value == Task(target, None, 0)
      ensures r.Err? ==> Value() == old(Value()) && ValidateAdvance(old(Value()), target) == Err(r.error)
    {
      if status == Approved {
        return Err(AlreadyApproved);
      }
      if processing {
        return Err(AlreadyProcessing);
      }
      if Rank(target) <= Rank(status) {
        return Err(InvalidTransition);
      }
      processing := true;
      r := Ok(Task(target, None, 0));
    }

    method RecordFailure(phase: Phase, reason: string)
      modifies this
      ensures Value() == FailPhase(old(Value()), phase, reason)
    {
      failureReason, failedPhase, processing := Some(reason), Some(phase), false;
    }

    method RecordCrash(reason: string)
      modifies this
      ensures Value() == Crash(old(Value()), reason)
    {
      processing, failureReason := false, Some(reason);
      failedPhase := if failedPhase.Some? then failedPhase else PhaseFor(status);
    }

    method FinalizeExtraction(storing: Storing) returns (raised: Option<string>)
      modifies this
      ensures raised == if storing.RaisesBefore? then Some(storing.reason) else None
      ensures storing.RaisesBefore? ==>
                Value() == if storing.rowWritten then WithResult(old(Value()), Extraction) else old(Value())
      ensures !storing.RaisesBefore? ==> Value() == Finalize(old(Value()), old(Value()), Extraction, 0)
    {
      if storing.RaisesBefore? && !storing.rowWritten {
        return Some(storing.reason);
      }
      ocrRows := ocrRows + 1;
      if storing.RaisesBefore? {
        return Some(storing.reason);
      }
      status, failureReason, failedPhase, processing := Extracted, None, None, false;
      raised := None;
    }

    method FinalizeNormalization(resolved: nat, storing: Storing) returns (raised: Option<string>)
      modifies this
      ensures raised == if storing.Stored? then None else Some(storing.reason)
      ensures storing.RaisesBefore? ==>
                Value() == if storing.rowWritten then WithResult(old(Value()), Normalization) else old(Value())
      ensures !storing.RaisesBefore? ==> Value() == Finalize(old(Value()), old(Value()), Normalization, resolved)
    {
      var target := if account.Some? then account.value else resolved;
      if storing.RaisesBefore? && !storing.rowWritten {
        return Some(storing.reason);
      }
      normalizedRows := normalizedRows + 1;
      if storing.RaisesBefore? {
        return Some(storing.reason);
      }
      status, failureReason, failedPhase, processing := Normalized, None, None, false;
      account := Some(target);
      raised := if storing.RaisesAfter? then Some(storing.reason) else None;
    }

    // The worker task: one phase after the other until the target is reached, a phase fails,
    // the job is still pending, or something raises. `calls` is the history of its chain.
    method ProcessStatementPipeline(task: Task, w: World, calls: seq<Call>) returns (c: Chain)
      modifies this
      ensures (Value(), c) == RunLoop(old(Value()), Chain(Running(task, old(Value())), task.polls, 0, calls), w)
    {
      c := Chain(Running(task, Value()), task.polls, 0, calls);
      while Rank(status) < Rank(task.target)
        invariant c.at.Running? && c.at.task.target == task.target && c.at.seen == Value() && c.events == 0
        invariant RunLoop(Value(), c, w)
               == RunLoop(old(Value()), Chain(Running(task, old(Value())), task.polls, 0, calls), w)
        decreases LoopMeasure(Value())
      {
        if PhaseFor(status).None? {
          break;
        }
        if !processing {
          processing := true;
          c := c.(at := Running(c.at.task, Value()));
        }
        c := RunPhase(c, PhaseFor(status).value, AnswersAt(w, status));
        if !c.at.Running? {
          return;
        }
      }
      c := Publish(c);
    }

    // The phase the status calls for: submit a job or take up the one given, read its status
    // once, and store, fail or reschedule accordingly.
    method RunPhase(c: Chain, phase: Phase, answers: Answers) returns (r: Chain)
      requires c.at.Running? && c.at.seen == Value() && PhaseFor(status) == Some(phase)
      modifies this
      ensures (Value(), r) == Work(old(Value()), c, phase, answers)
      ensures r.at.Running? ==>
                && r.at.task.target == c.at.task.target && r.at.seen == Value() && r.events == c.events
                && status == After(phase)
    {
      var task := c.at.task;
      var job, polled := task.job, c;
      if job.None? {
        match answers.submission
        case SubmitRaises(reason) =>
          RecordFailure(phase, reason);
          return Publish(Called(c, Submit(phase, None)));
        case SubmitMalformed(reason) =>
          RecordCrash(reason);
          return Publish(Called(c, Submit(phase, None)));
        case Submitted(id) =>
          job := Some(id);
          polled := Called(c, Submit(phase, job));
      }
      polled := Called(polled, Read(phase, job.value)).(statusReads := c.statusReads + 1);
      match answers.job
      case StatusRaises(reason) =>
        RecordFailure(phase, reason);
        return Publish(polled);
      case StatusMalformed(reason) =>
        RecordCrash(reason);
        return Publish(polled);
      case JobFailed(error) =>
        RecordFailure(phase, FailureText(error));
        return Publish(polled);
      case Succeeded(resolved) =>
        var raised;
        if phase == Extraction {
          raised := FinalizeExtraction(answers.storing);
        } else {
          raised := FinalizeNormalization(resolved, answers.storing);
        }
        if raised.Some? {
          RecordCrash(raised.value);
          return Publish(polled);
        }
        r := polled.(at := Running(Task(task.target, None, 0), Value()), statusReads := 0);
      case Pending =>
        if task.polls >= MAX_POLL_ATTEMPTS {
          RecordFailure(phase, EXHAUSTED);
          return Publish(polled);
        }
        if answers.rescheduling.RescheduleRaises? {
          RecordCrash(answers.rescheduling.reason);
          return polled.(at := Ended(true));
        }
        r := polled.(at := Queued(Task(task.target, job, task.polls + 1), status));
    }
  }
}
