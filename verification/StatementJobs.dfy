/**
 Which jobs a task chain submits and polls. A chain's calls to the AI service are kept as its
 history; in each phase they are one submission and then reads of that job alone.
 */
module StatementJobs {
  import opened Wrappers
  import opened StatementPipeline
  import opened StatementProtocol

  // The calls made in one phase, in order.
  function OfPhase(calls: seq<Call>, p: Phase): seq<Call> {
    if calls == [] then []
    else
      var last := calls[|calls| - 1];
      OfPhase(calls[..|calls| - 1], p) + (if last.phase == p then [last] else [])
  }

  lemma OfPhaseAppend(calls: seq<Call>, call: Call, p: Phase)
    ensures OfPhase(calls + [call], p) == OfPhase(calls, p) + (if call.phase == p then [call] else [])
  {
    assert (calls + [call])[..|calls|] == calls;
  }

  // A submission first, and nothing after it but reads of the job it got: at most 241 of them.
  predicate OneJob(cs: seq<Call>) {
    && |cs| <= 242
    && (cs != [] ==> cs[0].Submit? && forall k :: 1 <= k < |cs| ==> IsReadOf(cs[k], cs[0]))
  }

  predicate IsReadOf(call: Call, first: Call) {
    first.Submit? && first.submitted.Some? && call == Read(first.phase, first.submitted.value)
  }

  // A chain's task carries the job submitted in the phase at hand, once there is one, and counts its reads.
  predicate Tied(c: Chain, p: Phase, task: Task) {
    var cs := OfPhase(c.calls, p);
    && (task.job.None? ==> cs == [] && task.polls == 0)
    && (task.job.Some? ==> cs != [] && cs[0] == Submit(p, task.job) && |cs| == 1 + task.polls)
    && (p == Extraction ==> OfPhase(c.calls, Normalization) == [])
  }

  predicate OneJobEach(calls: seq<Call>) {
    OneJob(OfPhase(calls, Extraction)) && OneJob(OfPhase(calls, Normalization))
  }

  predicate JobsKept(c: Chain) {
    && OneJobEach(c.calls)
    && (Working(c) && PhaseFor(BaseStatus(c)).Some? ==> Tied(c, PhaseFor(BaseStatus(c)).value, c.at.task))
  }

  lemma SubmitKept(c: Chain, p: Phase, submitted: Option<nat>)
    requires OneJobEach(c.calls)
    requires OfPhase(c.calls, p) == []
    ensures var c' := Called(c, Submit(p, submitted));
            && OneJobEach(c'.calls)
            && OfPhase(c'.calls, p) == [Submit(p, submitted)]
            && forall q :: q != p ==> OfPhase(c'.calls, q) == OfPhase(c.calls, q)
  {
    OfPhaseAppend(c.calls, Submit(p, submitted), Extraction);
    OfPhaseAppend(c.calls, Submit(p, submitted), Normalization);
  }

  lemma ReadKept(c: Chain, p: Phase, job: nat)
    requires OneJobEach(c.calls)
    requires var cs := OfPhase(c.calls, p); cs != [] && cs[0] == Submit(p, Some(job)) && |cs| <= 241
    ensures var c' := Called(c, Read(p, job));
            && OneJobEach(c'.calls)
            && OfPhase(c'.calls, p) == OfPhase(c.calls, p) + [Read(p, job)]
            && forall q :: q != p ==> OfPhase(c'.calls, q) == OfPhase(c.calls, q)
  {
    OfPhaseAppend(c.calls, Read(p, job), Extraction);
    OfPhaseAppend(c.calls, Read(p, job), Normalization);
  }

  // What a poll leaves to do: nothing, the same phase with the same job, or the next phase.
  lemma PollLeaves(row: Row, c: Chain, p: Phase, job: nat, answers: Answers)
    requires c.at.Running? && PhaseFor(c.at.seen.status) == Some(p)
    ensures var r := Poll(row, c, p, job, answers).1;
            && r.calls == c.calls + [Read(p, job)]
            && (r.at.Queued? ==> r.at.task == Task(c.at.task.target, Some(job), c.at.task.polls + 1)
                                 && r.at.base == c.at.seen.status && c.at.task.polls < 240)
            && (r.at.Running? ==> r.at.task == Task(c.at.task.target, None, 0) && r.at.seen.status == After(p))
  {
  }

  lemma PollKeepsJobs(row: Row, c: Chain, p: Phase, job: nat, answers: Answers)
    requires c.at.Running? && c.at.task.polls <= 240 && PhaseFor(c.at.seen.status) == Some(p)
    requires OneJobEach(c.calls) && Tied(c, p, c.at.task.(job := Some(job)))
    ensures JobsKept(Poll(row, c, p, job, answers).1)
  {
    PollLeaves(row, c, p, job, answers);
    ReadKept(c, p, job);
    KeptAfterRead(c, p, job, Poll(row, c, p, job, answers).1);
  }

  lemma KeptAfterRead(c: Chain, p: Phase, job: nat, r: Chain)
    requires c.at.Running? && PhaseFor(c.at.seen.status) == Some(p) && Tied(c, p, c.at.task.(job := Some(job)))
    requires r.calls == c.calls + [Read(p, job)] && OneJobEach(r.calls)
    requires OfPhase(r.calls, p) == OfPhase(c.calls, p) + [Read(p, job)]
    requires forall q :: q != p ==> OfPhase(r.calls, q) == OfPhase(c.calls, q)
    requires r.at.Queued? ==> r.at.task == Task(c.at.task.target, Some(job), c.at.task.polls + 1)
                              && r.at.base == c.at.seen.status
    requires r.at.Running? ==> r.at.task == Task(c.at.task.target, None, 0) && r.at.seen.status == After(p)
    ensures JobsKept(r)
  {
  }

  lemma WorkKeepsJobs(row: Row, c: Chain, p: Phase, answers: Answers)
    requires c.at.Running? && c.at.task.polls <= 240 && PhaseFor(c.at.seen.status) == Some(p)
    requires OneJobEach(c.calls) && Tied(c, p, c.at.task)
    ensures JobsKept(Work(row, c, p, answers).1)
  {
    if c.at.task.job.Some? {
      PollKeepsJobs(row, c, p, c.at.task.job.value, answers);
    } else if answers.submission.Submitted? {
      SubmittedKeepsJobs(row, c, p, answers.submission.job, answers);
    } else {
      FailedKeepsJobs(c, Work(row, c, p, answers).1, p);
    }
  }

  lemma SubmittedKeepsJobs(row: Row, c: Chain, p: Phase, job: nat, answers: Answers)
    requires c.at.Running? && c.at.task.polls <= 240 && PhaseFor(c.at.seen.status) == Some(p)
    requires OneJobEach(c.calls) && Tied(c, p, c.at.task) && c.at.task.job.None?
    ensures JobsKept(Poll(row, Called(c, Submit(p, Some(job))), p, job, answers).1)
  {
    SubmitKept(c, p, Some(job));
    PollKeepsJobs(row, Called(c, Submit(p, Some(job))), p, job, answers);
  }

  lemma FailedKeepsJobs(c: Chain, r: Chain, p: Phase)
    requires OneJobEach(c.calls) && OfPhase(c.calls, p) == []
    requires r.at.Ended? && r.calls == c.calls + [Submit(p, None)]
    ensures JobsKept(r)
  {
    SubmitKept(c, p, None);
  }

  // A task taken from the queue finds the phase its job was submitted in, or nothing to do.
  lemma FetchKeepsJobs(row: Row, c: Chain)
    requires c.at.Queued? && PollsInBound(c) && BaseReached(c, row) && JobsKept(c)
    ensures JobsKept(c.(at := Running(c.at.task, row)))
  {
    assert Working(c) && PhaseFor(BaseStatus(c)).Some?;
  }

  lemma PassKeepsJobs(row: Row, c: Chain, answers: Answers)
    requires !c.at.Ended? && PollsInBound(c) && BaseReached(c, row) && JobsKept(c)
    ensures JobsKept(ChainStep(row, c, answers).1)
  {
    if c.at.Queued? {
      FetchKeepsJobs(row, c);
    } else if WorkLeft(c.at.task, c.at.seen.status) && c.at.seen.processing {
      WorkKeepsJobs(row, c, PhaseFor(c.at.seen.status).value, answers);
    }
  }

  lemma {:induction false} RunsKeepJobs(events: seq<Event>)
    requires StateAfter(events).Some?
    ensures forall i :: 0 <= i < |StateAfter(events).value.chains| ==> JobsKept(StateAfter(events).value.chains[i])
  {
    if events != [] {
      var before, e := events[..|events| - 1], events[|events| - 1];
      RunsKeepJobs(before);
      RunsAreSound(before);
      var s := StateAfter(before).value;
      if e.Pass? {
        assert BaseReached(s.chains[e.chain], s.row) && PollsInBound(s.chains[e.chain]);
        PassKeepsJobs(s.row, s.chains[e.chain], e.answers);
      }
    }
  }

  // In every run each chain submits at most one job in a phase, before anything else, and every
  // status it reads in that phase, at most 241 times, is that job's.
  lemma RunsPollOneJob(events: seq<Event>, i: nat, p: Phase)
    requires StateAfter(events).Some? && i < |StateAfter(events).value.chains|
    ensures OneJob(OfPhase(StateAfter(events).value.chains[i].calls, p))
  {
    RunsKeepJobs(events);
    assert JobsKept(StateAfter(events).value.chains[i]);
  }

  // What a read that finds the job still pending leads to: back to the queue with that job if this
  // was at most the 240th read of the phase, otherwise the phase fails.
  predicate PendingOutcome(row: Row, target: Status, p: Phase, row': Row, c': Chain) {
    var cs := OfPhase(c'.calls, p);
    && |cs| >= 2 && cs[0].Submit? && cs[0].submitted.Some?
    && (|cs| - 1 <= 240 ==> row' == row && c'.at.Queued? && c'.at.task == Task(target, cs[0].submitted, |cs| - 1))
    && (|cs| - 1 > 240 ==>
          c'.at == Ended(false) && row'.failedPhase == Some(p) && row'.failureReason.Some? && !row'.processing)
  }

  lemma PollPending(row: Row, c: Chain, p: Phase, job: nat, answers: Answers)
    requires c.at.Running? && answers.job.Pending? && answers.rescheduling.Rescheduled?
    requires OneJobEach(c.calls)
    requires Tied(c, p, c.at.task.(job := Some(job))) && c.at.task.polls <= 240
    ensures var (row', c') := Poll(row, c, p, job, answers); PendingOutcome(row, c.at.task.target, p, row', c')
  {
    ReadKept(c, p, job);
  }

  lemma PendingExactly(events: seq<Event>, i: nat, answers: Answers)
    requires StateAfter(events).Some? && i < |StateAfter(events).value.chains|
    requires answers.submission.Submitted? && answers.job.Pending? && answers.rescheduling.Rescheduled?
    requires var c := StateAfter(events).value.chains[i]; c.at.Running? && Working(c) && c.at.seen.processing
    ensures var s := StateAfter(events).value;
            var c, (row', c') := s.chains[i], ChainStep(s.row, s.chains[i], answers);
            PendingOutcome(s.row, c.at.task.target, PhaseFor(c.at.seen.status).value, row', c')
  {
    var s := StateAfter(events).value;
    var c := s.chains[i];
    RunsKeepJobs(events);
    RunsAreSound(events);
    assert JobsKept(c) && PollsInBound(c);
    var p := PhaseFor(c.at.seen.status).value;
    if c.at.task.job.Some? {
      PollPending(s.row, c, p, c.at.task.job.value, answers);
    } else {
      SubmitKept(c, p, Some(answers.submission.job));
      PollPending(s.row, Called(c, Submit(p, Some(answers.submission.job))), p, answers.submission.job, answers);
    }
  }
}
