/**
 The statement row under concurrent requests and task chains. An advance request checks and
 sets the processing flag in one atomic step, and no worker crashes; everything else
 interleaves write by write. Finishing extraction clears the flag, and a chain that goes on
 to normalization sets it again with a second write: between the two lies a gap. A bank account
 may be deleted at any time, which unlinks it from the statement.
 */
module StatementProtocol {
  import opened Wrappers
  import opened StatementPipeline
  import opened FreshIds

  datatype State = State(row: Row, chains: seq<Chain>, deleted: set<nat>)

  datatype Event =
    | Advance(target: Status)
    | Approve(override: Option<nat>)
    | KeepOverride(account: nat)
    | DeleteAccount(account: nat)
    | Pass(chain: nat, answers: Answers)

  // The targets a request may name.
  predicate Requestable(target: Status) {
    target == Extracted || target == Normalized
  }

  // The row once approved; the request may correct the account.
  function Approval(row: Row, account: Option<nat>): Row {
    row.(status := Approved, failureReason := None, failedPhase := None,
         account := if account.Some? then account else row.account)
  }

  function Apply(s: State, e: Event): Option<State> {
    match e
    case Advance(target) =>
      if Requestable(target) && ValidateAdvance(s.row, target).Ok?
      then Some(s.(row := s.row.(processing := true),
                   chains := s.chains + [Chain(Queued(Task(target, None, 0), s.row.status), 0, 0, [])]))
      else None
    case Approve(account) =>
      var chosen := if account.Some? then account else s.row.account;
      if s.row.status == Normalized && chosen.Some? && chosen.value !in s.deleted
      then Some(s.(row := Approval(s.row, account))) else None
    // A refused approval leaves the account it named.
    case KeepOverride(account) =>
      if s.row.status == Normalized && account !in s.deleted
      then Some(s.(row := s.row.(account := Some(account)))) else None
    case DeleteAccount(account) =>
      if account in s.deleted then None
      else Some(s.(row := if s.row.account == Some(account) then s.row.(account := None) else s.row,
                   deleted := s.deleted + {account}))
    // A deleted account cannot be written: the store must answer that saving raised.
    case Pass(i, answers) =>
      if i < |s.chains| && !s.chains[i].at.Ended? then
        var (row, c) := ChainStep(s.row, s.chains[i], answers);
        if Exists(row, s.deleted) then Some(s.(row := row, chains := s.chains[i := c])) else None
      else None
  }

  // The row's account, if it has one, has not been deleted.
  predicate Exists(row: Row, deleted: set<nat>) {
    row.account.Some? ==> row.account.value !in deleted
  }

  const Initial := State(NewRow, [], {})

  // The state after a run of events, when each of them is possible in its turn.
  function StateAfter(events: seq<Event>): Option<State> {
    if events == [] then Some(Initial)
    else
      var before := StateAfter(events[..|events| - 1]);
      if before.None? then None else Apply(before.value, events[|events| - 1])
  }

  // ---------- What holds in every run ----------

  // A chain that still has phases to run.
  predicate Working(c: Chain) {
    match c.at
    case Queued(_, _) => true
    case Running(task, seen) => WorkLeft(task, seen.status)
    case Ended(_) => false
  }

  // The chain is between finishing one phase and marking the row for the next.
  predicate InGap(c: Chain) {
    c.at.Running? && Working(c) && !c.at.seen.processing
  }

  function BaseStatus(c: Chain): Status
    requires !c.at.Ended?
  {
    if c.at.Queued? then c.at.base else c.at.seen.status
  }

  predicate RowsRecorded(row: Row) {
    && (Rank(row.status) >= 1 ==> row.ocrRows >= 1)
    && (Rank(row.status) >= 2 ==> row.normalizedRows >= 1)
  }

  predicate PollsInBound(c: Chain) {
    match c.at
    case Queued(task, base) =>
      Requestable(task.target) && Rank(base) < Rank(task.target)
      && task.polls == c.statusReads <= MAX_POLL_ATTEMPTS && c.events == 0
    case Running(task, seen) =>
      Requestable(task.target) && task.polls == c.statusReads <= MAX_POLL_ATTEMPTS && c.events == 0
    case Ended(fault) => c.statusReads <= MAX_POLL_ATTEMPTS + 1 && c.events == (if fault then 0 else 1)
  }

  predicate SomeWorking(s: State) {
    exists i :: 0 <= i < |s.chains| && Working(s.chains[i])
  }

  // A working chain was queued or last wrote at a status the row has kept or passed.
  predicate BaseReached(c: Chain, row: Row) {
    Working(c) ==> Rank(BaseStatus(c)) <= Rank(row.status) && (BaseStatus(c) == Uploaded ==> row.status == Uploaded)
  }

  // While the row is still uploaded, at most one chain works on it, exactly when it is marked.
  predicate UploadedIsExclusive(s: State) {
    s.row.status == Uploaded ==>
      && OneWorking(s)
      && (s.row.processing <==> SomeWorking(s))
      && forall i :: 0 <= i < |s.chains| ==> !InGap(s.chains[i])
  }

  predicate OneWorking(s: State) {
    forall i, j :: 0 <= i < j < |s.chains| ==> !(Working(s.chains[i]) && Working(s.chains[j]))
  }

  predicate Sound(s: State) {
    && RowsRecorded(s.row) && Exists(s.row, s.deleted)
    && UploadedIsExclusive(s)
    && (forall i :: 0 <= i < |s.chains| ==> BaseReached(s.chains[i], s.row))
    && (forall i :: 0 <= i < |s.chains| ==> PollsInBound(s.chains[i]))
  }

  // ---------- What holds while no advance request falls into a gap ----------

  // A running chain's copy of the row agrees with the row in what it decides by, but for an account
  // deleted meanwhile.
  predicate SeesRow(c: Chain, row: Row, deleted: set<nat>) {
    match c.at
    case Queued(task, base) => row.processing && base == row.status
    case Running(task, seen) =>
      Working(c) ==>
        && seen.status == row.status && seen.processing == row.processing
        && (seen.account == row.account || (row.account.None? && seen.account.Some? && seen.account.value in deleted))
    case Ended(_) => true
  }

  // A failed phase is the one that runs from the current status, and comes with a reason.
  predicate FailureConsistent(row: Row) {
    row.failedPhase.Some? ==> row.failureReason.Some? && row.failedPhase == PhaseFor(row.status)
  }

  predicate Orderly(s: State) {
    && OneWorking(s)
    && (s.row.processing <==> SomeWorking(s) && !GapOpen(s))
    && (forall i :: 0 <= i < |s.chains| ==> SeesRow(s.chains[i], s.row, s.deleted))
    && (forall i :: 0 <= i < |s.chains| && InGap(s.chains[i]) ==> s.row.status == Extracted)
    && FailureConsistent(s.row)
  }

  predicate GapOpen(s: State) {
    exists i :: 0 <= i < |s.chains| && InGap(s.chains[i])
  }

  // No advance request of the run was taken in a gap.
  predicate NeverInGap(events: seq<Event>)
    requires StateAfter(events).Some?
  {
    events == [] ||
    (var before := events[..|events| - 1];
     NeverInGap(before) && (events[|events| - 1].Advance? ==> !GapOpen(StateAfter(before).value)))
  }

  // The status stays, or moves to the next one.
  predicate StatusMoves(row: Row, row': Row) {
    row'.status == row.status || Rank(row'.status) == Rank(row.status) + 1
  }

  // Only an approval, successful or not, and the account's deletion change an account the row
  // already has.
  predicate AccountStays(row: Row, row': Row, e: Event) {
    row.account.Some? && !e.Approve? && !e.KeepOverride? && e != DeleteAccount(row.account.value) ==>
      row'.account == row.account
  }

  // ---------- Steps ----------

  lemma SoundAdvance(s: State, target: Status)
    requires Sound(s) && Apply(s, Advance(target)).Some?
    ensures Sound(Apply(s, Advance(target)).value)
  {
    var s' := Apply(s, Advance(target)).value;
    assert Working(s'.chains[|s.chains|]);
    assert forall i :: 0 <= i < |s.chains| ==> s'.chains[i] == s.chains[i];
  }

  // What one pass of a chain does to the row and to itself.
  lemma PassAlone(row: Row, c: Chain, answers: Answers)
    requires !c.at.Ended? && RowsRecorded(row) && PollsInBound(c) && BaseReached(c, row)
    ensures var (row', c') := ChainStep(row, c, answers);
            && RowsRecorded(row') && PollsInBound(c') && BaseReached(c', row')
            && (!Working(c) ==> row' == row && !Working(c'))
            && (row'.status == row.status || WorksTo(c, row'.status))
            && (row'.status == Uploaded && row.processing && Working(c) && !InGap(c) ==>
                  (Working(c') <==> row'.processing) && !InGap(c'))
  {
    if c.at.Running? && WorkLeft(c.at.task, c.at.seen.status) && c.at.seen.processing {
      var phase := PhaseFor(c.at.seen.status).value;
      WorkBooks(row, c, phase, answers);
      WorkStatus(row, c, phase, answers);
    }
  }

  // The chain is running the phase that leads to this status.
  predicate WorksTo(c: Chain, status: Status) {
    c.at.Running? && Working(c) && status == After(PhaseFor(c.at.seen.status).value)
  }

  lemma WorkBooks(row: Row, c: Chain, phase: Phase, answers: Answers)
    requires c.at.Running? && PollsInBound(c) && WorkLeft(c.at.task, c.at.seen.status)
    requires PhaseFor(c.at.seen.status) == Some(phase)
    ensures PollsInBound(Work(row, c, phase, answers).1)
  {
  }

  lemma WorkStatus(row: Row, c: Chain, phase: Phase, answers: Answers)
    requires c.at.Running? && RowsRecorded(row) && BaseReached(c, row)
    requires WorkLeft(c.at.task, c.at.seen.status) && c.at.seen.processing && PhaseFor(c.at.seen.status) == Some(phase)
    ensures var (row', c') := Work(row, c, phase, answers);
            && RowsRecorded(row') && BaseReached(c', row')
            && (row'.status == row.status || row'.status == After(phase))
            && (row'.status == Uploaded && row.processing ==> (Working(c') <==> row'.processing) && !InGap(c'))
  {
    if c.at.task.job.Some? {
      PollStatus(row, c, phase, c.at.task.job.value, answers);
    } else if answers.submission.Submitted? {
      var job := answers.submission.job;
      PollStatus(row, Called(c, Submit(phase, Some(job))), phase, job, answers);
    }
  }

  lemma PollStatus(row: Row, c: Chain, phase: Phase, job: nat, answers: Answers)
    requires c.at.Running? && RowsRecorded(row) && BaseReached(c, row)
    requires WorkLeft(c.at.task, c.at.seen.status) && c.at.seen.processing && PhaseFor(c.at.seen.status) == Some(phase)
    ensures var (row', c') := Poll(row, c, phase, job, answers);
            && RowsRecorded(row') && BaseReached(c', row')
            && (row'.status == row.status || row'.status == After(phase))
            && (row'.status == Uploaded && row.processing ==> (Working(c') <==> row'.processing) && !InGap(c'))
  {
  }

  lemma SoundPass(s: State, i: nat, answers: Answers)
    requires Sound(s) && Apply(s, Pass(i, answers)).Some?
    ensures Sound(Apply(s, Pass(i, answers)).value)
  {
    var c := s.chains[i];
    PassAlone(s.row, c, answers);
    var (row', c') := ChainStep(s.row, c, answers);
    OthersReached(s, i, row');
    var s' := s.(row := row', chains := s.chains[i := c']);
    assert Working(c) ==> SomeWorking(s);
    assert Working(c') ==> SomeWorking(s') by { assert s'.chains[i] == c'; }
    if row'.status == Uploaded {
      UploadedPass(s, i, row', c');
    }
  }

  lemma OthersReached(s: State, i: nat, row': Row)
    requires Sound(s) && i < |s.chains|
    requires row'.status == s.row.status || WorksTo(s.chains[i], row'.status)
    ensures forall j :: 0 <= j < |s.chains| && j != i ==> BaseReached(s.chains[j], row')
  {
    forall j | 0 <= j < |s.chains| && j != i && Working(s.chains[j])
      ensures BaseReached(s.chains[j], row')
    {
      assert BaseReached(s.chains[i], s.row) && BaseReached(s.chains[j], s.row);
      assert PollsInBound(s.chains[j]);
      assert i < j ==> !(Working(s.chains[i]) && Working(s.chains[j])) || !OneWorking(s);
      assert j < i ==> !(Working(s.chains[j]) && Working(s.chains[i])) || !OneWorking(s);
    }
  }

  lemma UploadedPass(s: State, i: nat, row': Row, c': Chain)
    requires i < |s.chains| && s.row.status == row'.status == Uploaded && UploadedIsExclusive(s)
    requires !Working(s.chains[i]) ==> row' == s.row && !Working(c')
    requires s.row.processing && Working(s.chains[i]) && !InGap(s.chains[i]) ==>
               (Working(c') <==> row'.processing) && !InGap(c')
    ensures UploadedIsExclusive(s.(row := row', chains := s.chains[i := c']))
  {
    var s' := s.(row := row', chains := s.chains[i := c']);
    if Working(s.chains[i]) {
      assert SomeWorking(s);
      forall j | 0 <= j < |s.chains| && j != i
        ensures !Working(s'.chains[j])
      {
        assert s'.chains[j] == s.chains[j];
      }
      assert Working(c') ==> Working(s'.chains[i]);
    } else {
      assert forall j :: 0 <= j < |s.chains| ==> Working(s'.chains[j]) == Working(s.chains[j]);
      if SomeWorking(s) {
        var j :| 0 <= j < |s.chains| && Working(s.chains[j]);
        assert Working(s'.chains[j]);
      }
    }
  }

  lemma SoundStep(s: State, e: Event)
    requires Sound(s) && Apply(s, e).Some?
    ensures Sound(Apply(s, e).value)
  {
    match e
    case Advance(target) => SoundAdvance(s, target);
    case Approve(account) =>
    case KeepOverride(account) =>
    case DeleteAccount(account) =>
    case Pass(i, answers) => SoundPass(s, i, answers);
  }

  lemma OrderlyAdvance(s: State, target: Status)
    requires Sound(s) && Orderly(s) && Apply(s, Advance(target)).Some? && !GapOpen(s)
    ensures Orderly(Apply(s, Advance(target)).value)
  {
    var s' := Apply(s, Advance(target)).value;
    assert Working(s'.chains[|s.chains|]);
    assert forall i :: 0 <= i < |s.chains| ==> s'.chains[i] == s.chains[i];
  }

  // A chain that sees the row as it is, and its row, after a pass.
  predicate OrderlyAfter(row: Row, row': Row, c': Chain, deleted: set<nat>) {
    && SeesRow(c', row', deleted) && FailureConsistent(row')
    && (InGap(c') ==> row'.status == Extracted)
    && (row'.processing <==> Working(c') && !InGap(c'))
    && StatusMoves(row, row') && (row.account.Some? ==> row'.account == row.account)
  }

  // One pass of a working chain that sees the row as it is.
  lemma PassOrderly(row: Row, c: Chain, deleted: set<nat>, answers: Answers)
    requires !c.at.Ended? && Working(c) && PollsInBound(c) && SeesRow(c, row, deleted) && FailureConsistent(row)
    requires (InGap(c) ==> row.status == Extracted) && (row.processing <==> !InGap(c))
    ensures var (row', c') := ChainStep(row, c, answers); OrderlyAfter(row, row', c', deleted)
  {
    if c.at.Running? && c.at.seen.processing {
      var phase := PhaseFor(c.at.seen.status).value;
      if c.at.task.job.Some? {
        PollOrderly(row, c, deleted, phase, c.at.task.job.value, answers);
      } else if answers.submission.Submitted? {
        var job := answers.submission.job;
        PollOrderly(row, Called(c, Submit(phase, Some(job))), deleted, phase, job, answers);
      }
    }
  }

  lemma PollOrderly(row: Row, c: Chain, deleted: set<nat>, phase: Phase, job: nat, answers: Answers)
    requires c.at.Running? && Working(c) && Requestable(c.at.task.target) && PhaseFor(c.at.seen.status) == Some(phase)
    requires SeesRow(c, row, deleted) && FailureConsistent(row) && row.processing && !InGap(c)
    ensures var (row', c') := Poll(row, c, phase, job, answers); OrderlyAfter(row, row', c', deleted)
  {
  }

  lemma OrderlyPass(s: State, i: nat, answers: Answers)
    requires Sound(s) && Orderly(s) && Apply(s, Pass(i, answers)).Some?
    ensures var s' := Apply(s, Pass(i, answers)).value;
            Orderly(s') && StatusMoves(s.row, s'.row) && AccountStays(s.row, s'.row, Pass(i, answers))
  {
    var c := s.chains[i];
    var (row', c') := ChainStep(s.row, c, answers);
    if Working(c) {
      OthersIdle(s, i);
      assert InGap(c) <==> GapOpen(s);
      assert SomeWorking(s);
      PassOrderly(s.row, c, s.deleted, answers);
      OneChainOrderly(s, i, row', c');
    } else {
      assert row' == s.row && c'.at.Ended?;
      IdleChainOrderly(s, i, c');
    }
  }

  lemma OthersIdle(s: State, i: nat)
    requires i < |s.chains| && OneWorking(s) && Working(s.chains[i])
    ensures forall j :: 0 <= j < |s.chains| && j != i ==> !Working(s.chains[j])
  {
  }

  lemma OneChainOrderly(s: State, i: nat, row': Row, c': Chain)
    requires i < |s.chains| && forall j :: 0 <= j < |s.chains| && j != i ==> !Working(s.chains[j])
    requires SeesRow(c', row', s.deleted) && FailureConsistent(row') && (InGap(c') ==> row'.status == Extracted)
    requires row'.processing <==> Working(c') && !InGap(c')
    ensures Orderly(s.(row := row', chains := s.chains[i := c']))
  {
    var s' := s.(row := row', chains := s.chains[i := c']);
    assert s'.chains[i] == c';
    assert forall j :: 0 <= j < |s.chains| && j != i ==> s'.chains[j] == s.chains[j];
    assert Working(c') ==> SomeWorking(s');
    assert InGap(c') ==> GapOpen(s');
  }

  lemma IdleChainOrderly(s: State, i: nat, c': Chain)
    requires Orderly(s) && i < |s.chains| && !Working(s.chains[i]) && c'.at.Ended?
    ensures Orderly(s.(chains := s.chains[i := c']))
  {
    var s' := s.(chains := s.chains[i := c']);
    assert forall j :: 0 <= j < |s.chains| && j != i ==> s'.chains[j] == s.chains[j];
    if SomeWorking(s) {
      var j :| 0 <= j < |s.chains| && Working(s.chains[j]);
      assert Working(s'.chains[j]);
    }
    if GapOpen(s) {
      var j :| 0 <= j < |s.chains| && InGap(s.chains[j]);
      assert InGap(s'.chains[j]);
    }
  }

  lemma OrderlyStep(s: State, e: Event)
    requires Sound(s) && Orderly(s) && Apply(s, e).Some?
    requires e.Advance? ==> !GapOpen(s)
    ensures Orderly(Apply(s, e).value)
    ensures StatusMoves(s.row, Apply(s, e).value.row) && AccountStays(s.row, Apply(s, e).value.row, e)
  {
    match e
    case Advance(target) => OrderlyAdvance(s, target);
    case Approve(account) => NoneWorking(s);
    case KeepOverride(account) => NoneWorking(s);
    case DeleteAccount(account) =>
    case Pass(i, answers) => OrderlyPass(s, i, answers);
  }

  // ---------- Whole runs ----------

  // Recorded results, poll counts and published events are right in every run, whatever the
  // requests and answers: results before status, at most 241 status reads a phase, exactly one
  // event from a chain that ends, and none only when rescheduling itself raised.
  lemma {:induction false} RunsAreSound(events: seq<Event>)
    requires StateAfter(events).Some?
    ensures Sound(StateAfter(events).value)
  {
    if events != [] {
      RunsAreSound(events[..|events| - 1]);
      SoundStep(StateAfter(events[..|events| - 1]).value, events[|events| - 1]);
    }
  }

  // While no advance request is taken in a gap, the flag is set exactly while one chain works
  // (but for the gap itself), so no phase runs twice at once; the status moves one phase at a
  // time; and a failure names the phase that runs from the current status.
  lemma {:induction false} CarefulRunsAreOrderly(events: seq<Event>)
    requires StateAfter(events).Some? && NeverInGap(events)
    ensures Orderly(StateAfter(events).value)
    ensures events != [] ==>
              var row, row' := StateAfter(events[..|events| - 1]).value.row, StateAfter(events).value.row;
              StatusMoves(row, row') && AccountStays(row, row', events[|events| - 1])
  {
    if events != [] {
      var before := events[..|events| - 1];
      CarefulRunsAreOrderly(before);
      RunsAreSound(before);
      OrderlyStep(StateAfter(before).value, events[|events| - 1]);
    }
  }

  // In particular a normalized or approved statement is not processing.
  lemma DoneIsIdle(events: seq<Event>)
    requires StateAfter(events).Some? && NeverInGap(events)
    requires Rank(StateAfter(events).value.row.status) >= 2
    ensures !StateAfter(events).value.row.processing && !SomeWorking(StateAfter(events).value)
  {
    CarefulRunsAreOrderly(events);
    RunsAreSound(events);
    NoneWorking(StateAfter(events).value);
  }

  lemma NoneWorking(s: State)
    requires Sound(s) && Orderly(s) && Rank(s.row.status) >= 2
    ensures forall i :: 0 <= i < |s.chains| ==> !Working(s.chains[i])
  {
    forall i | 0 <= i < |s.chains|
      ensures !Working(s.chains[i])
    {
      assert SeesRow(s.chains[i], s.row, s.deleted) && PollsInBound(s.chains[i]);
    }
  }

  // The condition is exact: after a run that kept clear of gaps, a further advance request
  // sets a second chain to work if and only if it is taken in a gap.
  lemma SecondChainExactlyInGap(events: seq<Event>, target: Status)
    requires StateAfter(events).Some? && NeverInGap(events)
    requires StateAfter(events + [Advance(target)]).Some?
    ensures OneWorking(StateAfter(events + [Advance(target)]).value) <==> !GapOpen(StateAfter(events).value)
  {
    StateAfterAppend(events, Advance(target));
    CarefulRunsAreOrderly(events);
    RunsAreSound(events);
    var s, s' := StateAfter(events).value, StateAfter(events + [Advance(target)]).value;
    if GapOpen(s) {
      var i :| 0 <= i < |s.chains| && InGap(s.chains[i]);
      assert s'.chains[i] == s.chains[i] && Working(s'.chains[i]) && Working(s'.chains[|s.chains|]);
    } else {
      OrderlyAdvance(s, target);
    }
  }

  lemma StateAfterAppend(events: seq<Event>, e: Event)
    ensures StateAfter(events + [e]) == if StateAfter(events).None? then None else Apply(StateAfter(events).value, e)
  {
    assert (events + [e])[..|events|] == events;
  }

  // ---------- The account of a normalized statement ----------

  predicate Owned(row: Row) {
    Rank(row.status) >= 2 ==> row.account.Some?
  }

  predicate AlwaysOwned(events: seq<Event>)
    requires StateAfter(events).Some?
  {
    Owned(StateAfter(events).value.row) && (events == [] || AlwaysOwned(events[..|events| - 1]))
  }

  // No deletion takes the account of a normalized or approved statement.
  predicate NeverUnlinked(events: seq<Event>)
    requires StateAfter(events).Some?
  {
    events == [] ||
    (var before, e := events[..|events| - 1], events[|events| - 1];
     var row := StateAfter(before).value.row;
     NeverUnlinked(before) && !(e.DeleteAccount? && Rank(row.status) >= 2 && row.account == Some(e.account)))
  }

  // A normalized or approved statement has an account throughout a run, whatever the requests,
  // if and only if nobody deletes it.
  lemma {:induction false} OwnedExactly(events: seq<Event>)
    requires StateAfter(events).Some?
    ensures AlwaysOwned(events) <==> NeverUnlinked(events)
  {
    if events != [] {
      var before, e := events[..|events| - 1], events[|events| - 1];
      OwnedExactly(before);
      if Owned(StateAfter(before).value.row) {
        OwnedStep(StateAfter(before).value, e);
      }
    }
  }

  lemma OwnedStep(s: State, e: Event)
    requires Owned(s.row) && Apply(s, e).Some?
    ensures Owned(Apply(s, e).value.row)
       <==> !(e.DeleteAccount? && Rank(s.row.status) >= 2 && s.row.account == Some(e.account))
  {
    if e.Pass? {
      PassOwned(s.row, s.chains[e.chain], e.answers);
    }
  }

  // Normalization writes an account with the status, and nothing else takes one away.
  lemma PassOwned(row: Row, c: Chain, answers: Answers)
    requires Owned(row) && !c.at.Ended?
    ensures Owned(ChainStep(row, c, answers).0)
  {
  }

  // Such a deletion is possible in any state of a run that holds an account after normalization.
  lemma DeletionUnlinks(events: seq<Event>)
    requires StateAfter(events).Some? && Rank(StateAfter(events).value.row.status) >= 2
    requires StateAfter(events).value.row.account.Some?
    ensures var delete := DeleteAccount(StateAfter(events).value.row.account.value);
            && StateAfter(events + [delete]).Some?
            && !Owned(StateAfter(events + [delete]).value.row)
  {
    RunsAreSound(events);
    StateAfterAppend(events, DeleteAccount(StateAfter(events).value.row.account.value));
  }

  // And such a state is reached: the chain in the gap marks the row and normalizes it.
  lemma UnlinkIsReached() returns (events: seq<Event>)
    ensures StateAfter(events).Some? && !Owned(StateAfter(events).value.row)
  {
    var first := GapEvents + [Pass(0, Works(1)), Pass(0, Works(1))];
    var task, marked := Task(Normalized, None, 0), GapRow.(processing := true);
    var s4 := State(marked, [GapChain.(at := Running(task, marked))], {});
    var s5 := Apply(s4, first[4]).value;
    GapOpens();
    assert first[..3] == GapEvents && first[..5] == first;
    Extend(first, 3, State(GapRow, [GapChain], {}), s4);
    Extend(first, 4, s4, s5);
    DeletionUnlinks(first);
    events := first + [DeleteAccount(1)];
  }

  // ---------- What each event does ----------

  // An advance request is refused exactly for an approved statement, a marked one, or a target that
  // is not ahead, in this order.
  lemma AdvanceExactly(row: Row, target: Status)
    ensures var r := ValidateAdvance(row, target);
            var ahead := (row.status == Uploaded && target != Uploaded)
                         || (row.status == Extracted && (target == Normalized || target == Approved))
                         || (row.status == Normalized && target == Approved);
            && (r == Err(AlreadyApproved) <==> row.status == Approved)
            && (r == Err(AlreadyProcessing) <==> row.status != Approved && row.processing)
            && (r == Err(InvalidTransition) <==> row.status != Approved && !row.processing && !ahead)
            && (r.Ok? <==> !row.processing && ahead)
  {
  }

  // A request names extraction or normalization and is taken exactly when that is ahead and the row
  // is not marked; it marks the row and queues a fresh task.
  lemma RequestExactly(s: State, target: Status)
    ensures var next := Apply(s, Advance(target));
            var ahead := (target == Extracted && s.row.status == Uploaded)
                         || (target == Normalized && (s.row.status == Uploaded || s.row.status == Extracted));
            && (next.Some? <==> !s.row.processing && ahead)
            && (next.Some? ==>
                  && next.value.row == s.row.(processing := true) && |next.value.chains| == |s.chains| + 1
                  && next.value.chains[|s.chains|].at == Queued(Task(target, None, 0), s.row.status)
                  && s.chains <= next.value.chains && next.value.deleted == s.deleted)
  {
  }

  // The row after a failure the phase handles itself.
  predicate FailedWith(row: Row, row': Row, phase: Phase, reason: string) {
    && row'.failedPhase == Some(phase) && row'.failureReason == Some(reason) && !row'.processing
    && row' == row.(failedPhase := row'.failedPhase, failureReason := row'.failureReason, processing := false)
  }

  // The row after one it does not: an earlier failed phase is kept.
  predicate CrashedWith(row: Row, row': Row, reason: string) {
    && row'.failureReason == Some(reason) && !row'.processing
    && (row.failedPhase.Some? ==> row'.failedPhase == row.failedPhase)
    && (row.failedPhase.None? ==>
          row'.failedPhase == match row.status
                              case Uploaded => Some(Extraction)
                              case Extracted => Some(Normalization)
                              case _ => None)
    && row' == row.(failedPhase := row'.failedPhase, failureReason := row'.failureReason, processing := false)
  }

  // The row after a phase is finished: one more result, the next status, no failure, no mark.
  predicate FinishedWith(row: Row, row': Row, phase: Phase) {
    && !row'.processing && row'.failureReason.None? && row'.failedPhase.None?
    && (phase == Extraction ==>
          row'.status == Extracted && row'.ocrRows == row.ocrRows + 1
          && row'.normalizedRows == row.normalizedRows && row'.account == row.account)
    && (phase == Normalization ==>
          row'.status == Normalized && row'.normalizedRows == row.normalizedRows + 1
          && row'.ocrRows == row.ocrRows && row'.account.Some?)
  }

  // What the answers of a pass that runs a phase make of the row: a failed or unanswered call fails
  // the phase with its reason, a job's own failure with its error or a stock text, an answer that
  // cannot be used crashes it, a job that succeeds and is stored finishes it, and a job still
  // pending leaves the row unless the polls are used up.
  lemma PhaseOutcome(row: Row, c: Chain, phase: Phase, job: nat, answers: Answers)
    requires c.at.Running? && PhaseFor(c.at.seen.status) == Some(phase)
    ensures var row' := Poll(row, c, phase, job, answers).0;
            && (answers.job.StatusRaises? ==> FailedWith(row, row', phase, answers.job.reason))
            && (answers.job.StatusMalformed? ==> CrashedWith(row, row', answers.job.reason))
            && (answers.job.JobFailed? && answers.job.error != "" ==> FailedWith(row, row', phase, answers.job.error))
            && (answers.job == JobFailed("") ==> FailedWith(row, row', phase, "AI service job failed"))
            && (answers.job.Succeeded? && answers.storing.Stored? ==> FinishedWith(row, row', phase))
            && (answers.job.Succeeded? && answers.storing.RaisesAfter? && phase == Extraction ==>
                  FinishedWith(row, row', phase))
            && (answers.job.Succeeded? && answers.storing.RaisesAfter? && phase == Normalization ==>
                  exists done :: FinishedWith(row, done, phase) && CrashedWith(done, row', answers.storing.reason))
            && (answers.job.Succeeded? && answers.storing.RaisesBefore? ==>
                  CrashedWith(if answers.storing.rowWritten then WithResult(row, phase) else row, row',
                              answers.storing.reason))
            && (answers.job.Pending? && c.at.task.polls < 240 && answers.rescheduling.Rescheduled? ==> row' == row)
            && (answers.job.Pending? && c.at.task.polls >= 240 ==>
                  row'.failedPhase == Some(phase) && row'.failureReason.Some? && !row'.processing)
            && (answers.job.Pending? && c.at.task.polls < 240 && answers.rescheduling.RescheduleRaises? ==>
                  CrashedWith(row, row', answers.rescheduling.reason))
  {
    if answers.job.Succeeded? && answers.storing.RaisesAfter? && phase == Normalization {
      var done := Finalize(row, c.at.seen, phase, answers.job.resolvedAccount);
      assert FinishedWith(row, done, phase);
    }
  }

  // A stored result is one more of its phase.
  lemma ResultCounted(row: Row, phase: Phase)
    ensures var row' := WithResult(row, phase);
            && (phase == Extraction ==> row' == row.(ocrRows := row.ocrRows + 1))
            && (phase == Normalization ==> row' == row.(normalizedRows := row.normalizedRows + 1))
  {
  }

  // The same for a submission that fails: no status is read.
  lemma SubmissionOutcome(row: Row, c: Chain, phase: Phase, answers: Answers)
    requires c.at.Running? && c.at.task.job.None? && !answers.submission.Submitted?
    ensures var (row', c') := Work(row, c, phase, answers);
            && c'.at == Ended(false) && c'.statusReads == c.statusReads && c'.events == c.events + 1
            && (answers.submission.SubmitRaises? ==> FailedWith(row, row', phase, answers.submission.reason))
            && (answers.submission.SubmitMalformed? ==> CrashedWith(row, row', answers.submission.reason))
  {
  }

  // Normalization keeps the account its task saw, and otherwise takes the one resolved.
  lemma AccountResolved(row: Row, c: Chain, job: nat, answers: Answers)
    requires c.at.Running? && PhaseFor(c.at.seen.status) == Some(Normalization)
    requires answers.job.Succeeded? && answers.storing.Stored?
    ensures var row' := Poll(row, c, Normalization, job, answers).0;
            && (c.at.seen.account.Some? ==> row'.account == c.at.seen.account)
            && (c.at.seen.account.None? ==> row'.account == Some(answers.job.resolvedAccount))
  {
  }

  // An approval takes a normalized statement to approved, clears its failure and may correct its
  // account.
  lemma ApprovalOutcome(s: State, override: Option<nat>)
    requires Apply(s, Approve(override)).Some?
    ensures var row, row' := s.row, Apply(s, Approve(override)).value.row;
            && row.status == Normalized && row'.status == Approved
            && row'.failureReason.None? && row'.failedPhase.None? && row'.processing == row.processing
            && row'.ocrRows == row.ocrRows && row'.normalizedRows == row.normalizedRows
            && row'.account.Some? && (override.Some? ==> row'.account == override)
            && (override.None? ==> row'.account == row.account)
  {
  }

  // ---------- One phase per request ----------

  // Every request asks for no more than the next status.
  predicate OnePhaseRequests(events: seq<Event>)
    requires StateAfter(events).Some?
  {
    events == [] ||
    (var before := events[..|events| - 1];
     OnePhaseRequests(before)
     && (events[|events| - 1].Advance? ==>
           Rank(events[|events| - 1].target) == Rank(StateAfter(before).value.row.status) + 1))
  }

  // The chain's target is the next status after the one it works from.
  predicate NextOnly(c: Chain) {
    Working(c) ==>
      && Rank(c.at.task.target) == Rank(BaseStatus(c)) + 1
      && !InGap(c)
  }

  // Requests for a single phase leave no gap, so all of the above holds of them unconditionally.
  lemma {:induction false} OnePhaseRequestsAreCareful(events: seq<Event>)
    requires StateAfter(events).Some? && OnePhaseRequests(events)
    ensures NeverInGap(events)
    ensures forall i :: 0 <= i < |StateAfter(events).value.chains| ==> NextOnly(StateAfter(events).value.chains[i])
  {
    if events != [] {
      var before, e := events[..|events| - 1], events[|events| - 1];
      OnePhaseRequestsAreCareful(before);
      CarefulRunsAreOrderly(before);
      RunsAreSound(before);
      var s, s' := StateAfter(before).value, StateAfter(events).value;
      if e.Pass? {
        assert SeesRow(s.chains[e.chain], s.row, s.deleted);
        PassKeepsNextOnly(s.row, s.chains[e.chain], s.deleted, e.answers);
      }
    }
  }

  lemma PassKeepsNextOnly(row: Row, c: Chain, deleted: set<nat>, answers: Answers)
    requires !c.at.Ended? && NextOnly(c) && SeesRow(c, row, deleted)
    ensures NextOnly(ChainStep(row, c, answers).1)
  {
  }

  // ---------- What a request in the gap can do ----------

  // The answers of a phase that succeeds, with the account it resolves, and of one that fails.
  function Works(account: nat): Answers {
    Answers(Submitted(0), Succeeded(account), Stored, Rescheduled)
  }

  const Fails := Answers(SubmitRaises(""), StatusRaises(""), Stored, Rescheduled)

  predicate CarefulStep(s: State, e: Event, s': State) {
    Apply(s, e) == Some(s') && (e.Advance? ==> !GapOpen(s))
  }

  // The states a list of events passes through one by one, none of them a request taken in a gap.
  predicate CarefulPath(events: seq<Event>, states: seq<State>) {
    |states| == |events| + 1 && forall k :: 0 <= k < |events| ==> CarefulStep(states[k], events[k], states[k + 1])
  }

  lemma JoinPaths(e1: seq<Event>, s1: seq<State>, e2: seq<Event>, s2: seq<State>)
    requires CarefulPath(e1, s1) && CarefulPath(e2, s2) && s1[|e1|] == s2[0]
    ensures CarefulPath(e1 + e2, s1 + s2[1..])
  {
    var events, states := e1 + e2, s1 + s2[1..];
    forall k | 0 <= k < |events|
      ensures CarefulStep(states[k], events[k], states[k + 1])
    {
      if k >= |e1| {
        assert CarefulStep(s2[k - |e1|], e2[k - |e1|], s2[k - |e1| + 1]);
      }
    }
  }

  // The last event of such a path moves the status back.
  predicate FallsBack(s: State, events: seq<Event>, states: seq<State>) {
    && CarefulPath(events, states) && events != [] && states[0] == s
    && Rank(states[|events|].row.status) < Rank(states[|events| - 1].row.status)
  }

  ghost predicate CanFallBack(s: State) {
    exists events, states :: FallsBack(s, events, states)
  }

  // In particular the status of an approved statement.
  ghost predicate ApprovalCanFallBack(s: State) {
    exists events: seq<Event>, states: seq<State> ::
      FallsBack(s, events, states) && states[|events| - 1].row.status == Approved
  }

  lemma CarefulStepIsOrderly(s: State, e: Event, s': State)
    requires Sound(s) && Orderly(s) && CarefulStep(s, e, s')
    ensures Sound(s') && Orderly(s') && StatusMoves(s.row, s'.row)
  {
    SoundStep(s, e);
    OrderlyStep(s, e);
  }

  // The status never moves back on a careful path from an orderly state.
  lemma {:induction false} CarefulPathIsOrderly(events: seq<Event>, states: seq<State>)
    requires CarefulPath(events, states) && Sound(states[0]) && Orderly(states[0])
    ensures Sound(states[|events|]) && Orderly(states[|events|])
    ensures events != [] ==> StatusMoves(states[|events| - 1].row, states[|events|].row)
  {
    var n := |events|;
    if n > 0 {
      assert CarefulStep(states[n - 1], events[n - 1], states[n]);
      CarefulPathIsOrderly(events[..n - 1], states[..n]);
      CarefulStepIsOrderly(states[n - 1], events[n - 1], states[n]);
    }
  }

  // A request for normalization, as it is queued.
  const Asked := Chain(Queued(Task(Normalized, None, 0), Extracted), 0, 0, [])

  // The chain in the gap marks the row and fails, and a second request is let in.
  lemma FailThenAsk(s: State, i: nat) returns (events: seq<Event>, states: seq<State>)
    requires Sound(s) && Orderly(s) && i < |s.chains| && InGap(s.chains[i]) && !s.row.processing
    ensures CarefulPath(events, states) && |events| == 3
    ensures states[0] == s.(row := s.row.(processing := true), chains := s.chains + [Asked])
    ensures BothAsked(states[3], |s.chains|)
  {
    var n := |s.chains|;
    var s1 := s.(row := s.row.(processing := true), chains := s.chains + [Asked]);
    var s2 := Apply(s1, Pass(i, Fails)).value;
    var s3 := Apply(s2, Pass(i, Fails)).value;
    OthersIdle(s, i);
    forall j | 0 <= j < |s3.chains|
      ensures !InGap(s3.chains[j])
    {
      if j < n && j != i {
        assert s3.chains[j] == s.chains[j] && !Working(s.chains[j]);
      }
    }
    events := [Pass(i, Fails), Pass(i, Fails), Advance(Normalized)];
    states := [s1, s2, s3, Apply(s3, Advance(Normalized)).value];
  }

  // The two last chains are both to normalize the extracted row.
  predicate BothAsked(s: State, n: nat) {
    && |s.chains| == n + 2 && s.chains[n] == s.chains[n + 1] == Asked
    && s.row.status == Extracted && s.row.processing && Exists(s.row, s.deleted)
  }

  // Both look at the row, the first normalizes it, it is approved, and the second normalizes it
  // again.
  lemma NormalizeTwice(s: State, n: nat) returns (events: seq<Event>, states: seq<State>)
    requires BothAsked(s, n)
    ensures CarefulPath(events, states) && |events| == 5 && states[0] == s
    ensures states[4].row.status == Approved && states[5].row.status == Normalized
  {
    var answers := Works(Unused(s.deleted));
    var s1 := Apply(s, Pass(n, Fails)).value;
    var s2 := Apply(s1, Pass(n + 1, Fails)).value;
    assert s2.chains[n] == s2.chains[n + 1] == Chain(Running(Task(Normalized, None, 0), s.row), 0, 0, []);
    var s3 := Apply(s2, Pass(n, answers)).value;
    var s4 := Apply(s3, Approve(None)).value;
    events := [Pass(n, Fails), Pass(n + 1, Fails), Pass(n, answers), Approve(None), Pass(n + 1, answers)];
    states := [s, s1, s2, s3, s4, Apply(s4, Pass(n + 1, answers)).value];
  }

  // Once a request has been taken in a gap, the statement can fall back: the chain in the gap
  // fails, which lets one more request in, both requests' chains run normalization, and the
  // slower one does so after the approval.
  lemma GapLetsFallBack(s: State)
    requires Sound(s) && Orderly(s) && GapOpen(s) && !s.row.processing
    ensures ApprovalCanFallBack(s.(row := s.row.(processing := true), chains := s.chains + [Asked]))
  {
    var i :| 0 <= i < |s.chains| && InGap(s.chains[i]);
    var e1, s1 := FailThenAsk(s, i);
    var e2, s2 := NormalizeTwice(s1[3], |s.chains|);
    JoinPaths(e1, s1, e2, s2);
    var events, states := e1 + e2, s1 + s2[1..];
    assert states[7] == s2[4] && states[8] == s2[5];
    assert FallsBack(s1[0], events, states) && states[|events| - 1].row.status == Approved;
  }

  // After a run that kept clear of gaps, an accepted request makes it possible for the status to
  // move back, with no further request taken in a gap, if and only if it is taken in a gap.
  lemma FallsBackExactlyFromGap(events: seq<Event>, target: Status)
    requires StateAfter(events).Some? && NeverInGap(events)
    requires StateAfter(events + [Advance(target)]).Some?
    ensures CanFallBack(StateAfter(events + [Advance(target)]).value) <==> GapOpen(StateAfter(events).value)
    ensures ApprovalCanFallBack(StateAfter(events + [Advance(target)]).value) <==> GapOpen(StateAfter(events).value)
  {
    var s := StateAfter(events).value;
    StateAfterAppend(events, Advance(target));
    CarefulRunsAreOrderly(events);
    RunsAreSound(events);
    var s' := Apply(s, Advance(target)).value;
    if GapOpen(s) {
      assert s' == s.(row := s.row.(processing := true), chains := s.chains + [Asked]);
      GapLetsFallBack(s);
    } else if CanFallBack(s') {
      var more: seq<Event>, states: seq<State> :| FallsBack(s', more, states);
      CarefulStepIsOrderly(s, Advance(target), s');
      CarefulPathIsOrderly(more, states);
    }
  }

  const GapEvents := [Advance(Normalized), Pass(0, Works(1)), Pass(0, Works(1))]
  const GapRow := Row(Extracted, false, None, None, 1, 0, None)
  const GapCalls := [Submit(Extraction, Some(0)), Read(Extraction, 0)]
  const GapChain := Chain(Running(Task(Normalized, None, 0), GapRow), 0, 0, GapCalls)

  lemma GapOpens()
    ensures StateAfter(GapEvents) == Some(State(GapRow, [GapChain], {})) && NeverInGap(GapEvents)
  {
    var task, unread := Task(Normalized, None, 0), NewRow.(processing := true);
    var s1 := State(unread, [Chain(Queued(task, Uploaded), 0, 0, [])], {});
    var s2 := State(unread, [Chain(Running(task, unread), 0, 0, [])], {});
    Extend(GapEvents, 0, Initial, s1);
    Extend(GapEvents, 1, s1, s2);
    assert [] + [GapCalls[0]] + [GapCalls[1]] == GapCalls;
    Extend(GapEvents, 2, s2, State(GapRow, [GapChain], {}));
    assert GapEvents[..3] == GapEvents;
  }

  // A gap is reached as soon as a request asks for two phases, and a second request is let in.
  lemma GapIsReached() returns (events: seq<Event>)
    ensures StateAfter(events).Some? && NeverInGap(events) && GapOpen(StateAfter(events).value)
    ensures StateAfter(events + [Advance(Normalized)]).Some?
  {
    events := GapEvents;
    GapOpens();
    assert InGap(StateAfter(events).value.chains[0]);
    StateAfterAppend(events, Advance(Normalized));
  }

  lemma Extend(es: seq<Event>, k: nat, before: State, next: State)
    requires k < |es| && StateAfter(es[..k]) == Some(before) && NeverInGap(es[..k])
    requires Apply(before, es[k]).Some? && (es[k].Advance? ==> !GapOpen(before))
    requires var got := Apply(before, es[k]).value;
             got.row == next.row && got.chains == next.chains && got.deleted == next.deleted
    ensures StateAfter(es[..k + 1]) == Some(next) && NeverInGap(es[..k + 1])
  {
    assert es[..k + 1] == es[..k] + [es[k]];
    assert es[..k + 1][..k] == es[..k];
    StateAfterAppend(es[..k], es[k]);
  }

  // So there is a run after which the status of an approved statement can move back.
  lemma StatusCanFallBack() returns (events: seq<Event>)
    ensures StateAfter(events).Some? && ApprovalCanFallBack(StateAfter(events).value)
  {
    var first := GapIsReached();
    FallsBackExactlyFromGap(first, Normalized);
    events := first + [Advance(Normalized)];
  }

  // ---------- Every chain ends ----------

  // Phases left to the target, then polls left in the phase, then the place in the loop.
  function PassesLeft(c: Chain): nat
    requires PollsInBound(c)
  {
    match c.at
    case Queued(task, base) => 730 * PhasesLeft(task, base) + 3 * (MAX_POLL_ATTEMPTS - task.polls) + 4
    case Running(task, seen) =>
      730 * PhasesLeft(task, seen.status) + 3 * (MAX_POLL_ATTEMPTS - task.polls) + (if seen.processing then 2 else 3)
    case Ended(_) => 0
  }

  function PhasesLeft(task: Task, status: Status): nat {
    if Rank(status) < Rank(task.target) then Rank(task.target) - Rank(status) else 0
  }

  // In any run, whatever the AI service answers and whatever other chains do, each pass of a
  // chain brings its end nearer.
  lemma PassShortens(events: seq<Event>, i: nat, answers: Answers)
    requires StateAfter(events).Some? && StateAfter(events + [Pass(i, answers)]).Some?
    ensures var s, s' := StateAfter(events).value, StateAfter(events + [Pass(i, answers)]).value;
            && i < |s.chains| == |s'.chains|
            && PollsInBound(s.chains[i]) && PollsInBound(s'.chains[i])
            && PassesLeft(s'.chains[i]) < PassesLeft(s.chains[i])
            && forall j :: 0 <= j < |s.chains| && j != i ==> s'.chains[j] == s.chains[j]
  {
    StateAfterAppend(events, Pass(i, answers));
    RunsAreSound(events);
    RunsAreSound(events + [Pass(i, answers)]);
    var s := StateAfter(events).value;
    assert PollsInBound(s.chains[i]) && BaseReached(s.chains[i], s.row);
    PassAlone(s.row, s.chains[i], answers);
    ChainShortens(s.row, s.chains[i], answers);
  }

  lemma ChainShortens(row: Row, c: Chain, answers: Answers)
    requires !c.at.Ended? && PollsInBound(c) && BaseReached(c, row) && PollsInBound(ChainStep(row, c, answers).1)
    ensures PassesLeft(ChainStep(row, c, answers).1) < PassesLeft(c)
  {
  }

  // ---------- The worker's run is a run of the protocol ----------

  // The passes of the last chain, from a running one on, as the worker makes them unhindered.
  function LoopEvents(row: Row, c: Chain, i: nat, w: World): seq<Event>
    requires c.at.Running?
    decreases LoopMeasure(c.at.seen)
  {
    var answers := AnswersAt(w, c.at.seen.status);
    var (row', c') := ChainStep(row, c, answers);
    [Pass(i, answers)] + (if c'.at.Running? then LoopEvents(row', c', i, w) else [])
  }

  function ApplyAll(s: State, events: seq<Event>): Option<State>
    decreases |events|
  {
    if events == [] then Some(s)
    else
      var next := Apply(s, events[0]);
      if next.None? then None else ApplyAll(next.value, events[1..])
  }

  // The pass that writes an account is the last that writes.
  lemma AccountWrittenLast(row: Row, c: Chain, w: World)
    requires c.at.Running?
    ensures var row' := ChainStep(row, c, AnswersAt(w, c.at.seen.status)).0;
            row'.account == row.account || row' == RunLoop(row, c, w).0
  {
    var (row', c') := ChainStep(row, c, AnswersAt(w, c.at.seen.status));
    if row'.account != row.account && c'.at.Running? {
      assert RunLoop(row', c', w).0 == row';
    }
  }

  // ProcessStatementPipeline, which is proved equal to RunLoop, makes exactly these passes, on
  // accounts that are there.
  lemma {:induction false} WorkerRunIsARun(s: State, i: nat, w: World)
    requires i < |s.chains| && s.chains[i].at.Running?
    requires Exists(s.row, s.deleted) && Exists(RunLoop(s.row, s.chains[i], w).0, s.deleted)
    ensures var (row, c) := RunLoop(s.row, s.chains[i], w);
            ApplyAll(s, LoopEvents(s.row, s.chains[i], i, w)) == Some(s.(row := row, chains := s.chains[i := c]))
    decreases LoopMeasure(s.chains[i].at.seen)
  {
    var c := s.chains[i];
    var answers := AnswersAt(w, c.at.seen.status);
    var (row', c') := ChainStep(s.row, c, answers);
    var s' := s.(row := row', chains := s.chains[i := c']);
    AccountWrittenLast(s.row, c, w);
    assert Apply(s, Pass(i, answers)) == Some(s');
    var events := LoopEvents(s.row, c, i, w);
    if c'.at.Running? {
      WorkerRunIsARun(s', i, w);
      assert events[1..] == LoopEvents(row', c', i, w);
      var end := RunLoop(row', c', w).1;
      assert s'.chains[i := end] == s.chains[i := end];
    } else {
      assert events[1..] == [];
    }
  }
}
