/**
 The scenario's own requests beside the portfolio requests. Changing its status or title reads
 the row without a lock and later saves it whole, plan included; deleting it is one step. Titles
 are not part of the row here, so a change of the title alone is a change to no new status.
 */
module ScenarioProtocol {
  import opened Wrappers
  import opened PlanModel
  import opened PlanRecalculation
  import opened PlanLaws
  import opened Portfolio

  // A change request between its read and its save.
  datatype Change = Change(user: UserId, scenario: ScenarioId, status: Option<Status>, read: Scenario)

  datatype State = State(db: Db, changes: seq<Option<Change>>)

  datatype Event =
    | Do(request: Request)
    | Read(user: UserId, scenario: ScenarioId, status: Option<Status>)
    | Write(k: nat)
    | DeleteScenario(user: UserId, scenario: ScenarioId)

  // ---------- Specification ----------

  function WithStatus(s: Scenario, status: Option<Status>): Scenario {
    if status.Some? then s.(status := status.value) else s
  }

  function OwnedBy(db: Db, user: UserId, scenario: ScenarioId): Option<Scenario> {
    if scenario in db.scenarios && db.scenarios[scenario].owner == user then Some(db.scenarios[scenario]) else None
  }

  // The change as one step: a missing scenario is left missing.
  function ChangeAtOnce(db: Db, user: UserId, scenario: ScenarioId, status: Option<Status>): Db {
    var found := OwnedBy(db, user, scenario);
    if found.None? then db else db.(scenarios := db.scenarios[scenario := WithStatus(found.value, status)])
  }

  // The save of what was read: it overwrites the row, or puts a deleted one back.
  function SaveRow(db: Db, c: Change): Db {
    db.(scenarios := db.scenarios[c.scenario := WithStatus(c.read, c.status)])
  }

  function DeleteAtOnce(db: Db, user: UserId, scenario: ScenarioId): Db {
    if OwnedBy(db, user, scenario).None? then db else ApplyChange(db, scenario, Delete)
  }

  function Apply(s: State, market: Market, e: Event): Option<State> {
    match e
    case Do(request) => Some(s.(db := Execute(s.db, market, request).0))
    case Read(user, scenario, status) =>
      var found := OwnedBy(s.db, user, scenario);
      Some(s.(changes := s.changes + [if found.None? then None else Some(Change(user, scenario, status, found.value))]))
    case Write(k) =>
      if k < |s.changes| && s.changes[k].Some?
      then Some(State(SaveRow(s.db, s.changes[k].value), s.changes[k := None])) else None
    case DeleteScenario(user, scenario) => Some(s.(db := DeleteAtOnce(s.db, user, scenario)))
  }

  function StateAfter(db: Db, market: Market, events: seq<Event>): Option<State> {
    if events == [] then Some(State(db, []))
    else
      var before := StateAfter(db, market, events[..|events| - 1]);
      if before.None? then None else Apply(before.value, market, events[|events| - 1])
  }

  // The same requests one by one, each whole when it commits; a read commits nothing.
  function SerialDb(db: Db, market: Market, events: seq<Event>): Db
    requires StateAfter(db, market, events).Some?
  {
    if events == [] then db
    else
      var before, e := events[..|events| - 1], events[|events| - 1];
      var serial := SerialDb(db, market, before);
      match e
      case Do(request) => Execute(serial, market, request).0
      case Read(_, _, _) => serial
      case Write(k) =>
        var c := StateAfter(db, market, before).value.changes[k].value;
        ChangeAtOnce(serial, c.user, c.scenario, c.status)
      case DeleteScenario(user, scenario) => DeleteAtOnce(serial, user, scenario)
  }

  // A change that nothing interrupts sets the status, if it names one, and nothing else; a deletion
  // takes the scenario and its purchase records, and nothing else.
  lemma ChangeUninterrupted(s: State, market: Market, user: UserId, scenario: ScenarioId, status: Option<Status>)
    ensures var read := Apply(s, market, Read(user, scenario, status)).value;
            var mine := scenario in s.db.scenarios && s.db.scenarios[scenario].owner == user;
            && read.db == s.db
            && (Apply(read, market, Write(|s.changes|)).Some? <==> mine)
            && (mine ==>
                  var after, row := Apply(read, market, Write(|s.changes|)).value.db, s.db.scenarios[scenario];
                  && after.purchases == s.db.purchases && after.holdings == s.db.holdings
                  && scenario in after.scenarios && after.scenarios[scenario].plan == row.plan
                  && after.scenarios[scenario].owner == user
                  && after.scenarios[scenario].status == (if status.Some? then status.value else row.status)
                  && forall x :: x != scenario ==> Get(after.scenarios, x) == Get(s.db.scenarios, x))
  {
  }

  lemma DeletionExactly(s: State, market: Market, user: UserId, scenario: ScenarioId)
    ensures var after := Apply(s, market, DeleteScenario(user, scenario)).value.db;
            var mine := scenario in s.db.scenarios && s.db.scenarios[scenario].owner == user;
            && after.holdings == s.db.holdings
            && (!mine ==> after == s.db)
            && (mine ==>
                  && after.scenarios == s.db.scenarios - {scenario}
                  && forall key: PurchaseKey :: Get(after.purchases, key)
                                             == if key.0 == scenario then None else Get(s.db.purchases, key))
  {
  }

  // ---------- Exactly when the order of commits explains the run ----------

  predicate ChangeSound(c: Option<Change>) {
    c.Some? ==> c.value.read.owner == c.value.user
  }

  // What the save does not mean to change is as it was read.
  predicate UpToDate(db: Db, c: Change) {
    c.scenario in db.scenarios && WithStatus(db.scenarios[c.scenario], c.status) == WithStatus(c.read, c.status)
  }

  lemma SaveExactly(db: Db, c: Change)
    requires ChangeSound(Some(c))
    ensures SaveRow(db, c) == ChangeAtOnce(db, c.user, c.scenario, c.status) <==> UpToDate(db, c)
  {
    var saved := SaveRow(db, c).scenarios;
    assert saved[c.scenario] == WithStatus(c.read, c.status);
    if UpToDate(db, c) {
      assert db.scenarios[c.scenario].owner == WithStatus(c.read, c.status).owner;
    }
  }

  lemma {:induction false} ChangesAreSound(db: Db, market: Market, events: seq<Event>)
    requires StateAfter(db, market, events).Some?
    ensures forall k :: 0 <= k < |StateAfter(db, market, events).value.changes| ==>
              ChangeSound(StateAfter(db, market, events).value.changes[k])
  {
    if events != [] {
      ChangesAreSound(db, market, events[..|events| - 1]);
    }
  }

  predicate NeverStale(db: Db, market: Market, events: seq<Event>)
    requires StateAfter(db, market, events).Some?
  {
    events == [] ||
    (var before, e := events[..|events| - 1], events[|events| - 1];
     var s := StateAfter(db, market, before).value;
     NeverStale(db, market, before) && (e.Write? ==> UpToDate(s.db, s.changes[e.k].value)))
  }

  predicate AlwaysSerial(db: Db, market: Market, events: seq<Event>)
    requires StateAfter(db, market, events).Some?
  {
    && StateAfter(db, market, events).value.db == SerialDb(db, market, events)
    && (events == [] || AlwaysSerial(db, market, events[..|events| - 1]))
  }

  // Throughout a run the database is that of the requests made one by one in the order they
  // commit if and only if no save overwrites what changed since its read.
  lemma {:induction false} SerialExactly(db: Db, market: Market, events: seq<Event>)
    requires StateAfter(db, market, events).Some?
    ensures AlwaysSerial(db, market, events) <==> NeverStale(db, market, events)
  {
    if events != [] {
      var before, e := events[..|events| - 1], events[|events| - 1];
      SerialExactly(db, market, before);
      ChangesAreSound(db, market, before);
      if e.Write? {
        var s := StateAfter(db, market, before).value;
        SaveExactly(s.db, s.changes[e.k].value);
      }
    }
  }

  // ---------- What can make a read stale ----------

  // The event commits a change to this scenario's row.
  predicate Commits(s: State, market: Market, e: Event, scenario: ScenarioId) {
    match e
    case Do(request) =>
      var response := Execute(s.db, market, request).1;
      request.scenario == scenario && (response == Updated || response == Removed)
    case Read(_, _, _) => false
    case Write(k) => k < |s.changes| && s.changes[k].Some? && s.changes[k].value.scenario == scenario
    case DeleteScenario(user, deleted) => deleted == scenario && OwnedBy(s.db, user, scenario).Some?
  }

  // A purchase never does, and of the other requests only an accepted one.
  lemma OthersLeaveRow(s: State, market: Market, e: Event, scenario: ScenarioId)
    requires Apply(s, market, e).Some? && !Commits(s, market, e, scenario)
    ensures Get(Apply(s, market, e).value.db.scenarios, scenario) == Get(s.db.scenarios, scenario)
  {
  }

  predicate LeavesRow(s: State, market: Market, e: Event, s': State, scenario: ScenarioId) {
    Apply(s, market, e) == Some(s') && !Commits(s, market, e, scenario)
  }

  predicate NoneCommits(s: State, market: Market, events: seq<Event>, states: seq<State>, scenario: ScenarioId) {
    && |states| == |events| + 1 && states[0] == s
    && forall k :: 0 <= k < |events| ==> LeavesRow(states[k], market, events[k], states[k + 1], scenario)
  }

  // So a save is up to date when nothing commits to its scenario between its read and itself.
  lemma {:induction false} StaysUpToDate(s: State, market: Market, events: seq<Event>, states: seq<State>, c: Change)
    requires NoneCommits(s, market, events, states, c.scenario) && UpToDate(s.db, c)
    ensures UpToDate(states[|events|].db, c)
  {
    var n := |events|;
    if n > 0 {
      assert LeavesRow(states[n - 1], market, events[n - 1], states[n], c.scenario);
      StaysUpToDate(s, market, events[..n - 1], states[..n], c);
      OthersLeaveRow(states[n - 1], market, events[n - 1], c.scenario);
      assert Get(states[n].db.scenarios, c.scenario) == Get(states[n - 1].db.scenarios, c.scenario);
    }
  }

  // ---------- What a stale save loses ----------

  // An edit or removal accepted between the read and the save is undone by it, in whatever state:
  // the plan is again the one that was read.
  lemma StaleSaveUndoes(s: State, market: Market, user: UserId, scenario: ScenarioId, status: Option<Status>,
                        request: Request)
    requires OwnedBy(s.db, user, scenario).Some? && request.scenario == scenario
    ensures var k := |s.changes|;
            var read := Apply(s, market, Read(user, scenario, status)).value;
            var done := Apply(read, market, Do(request)).value;
            && done.db == Execute(s.db, market, request).0
            && Apply(done, market, Write(k)).Some?
            && var after := Apply(done, market, Write(k)).value.db;
               scenario in after.scenarios && after.scenarios[scenario].plan == s.db.scenarios[scenario].plan
  {
  }

  // Such an edit exists: it is accepted, changes the plan, and is lost.
  lemma LostEditIsReached(gold: Listing, market: Market, now: int) returns (db: Db, events: seq<Event>)
    requires gold.increment == 100_000_000
    requires 0 in market.catalogue && 1 in market.catalogue && market.catalogue[0] == market.catalogue[1] == gold
    ensures |events| == 3 && events[0].Read? && events[1].Do? && events[2].Write?
    ensures Execute(db, market, events[1].request).1 == Updated
    ensures Execute(db, market, events[1].request).0 != db
    ensures StateAfter(db, market, events).Some? && StateAfter(db, market, events).value.db == db
  {
    var p := OtherAmountIsMoved(gold, market.catalogue, now);
    var row := Scenario(0, Saved, p);
    var request := Edit(0, 0, 0, Changes(Some(5000), None, None), now);
    db := Db(map[0 := row], map[], map[]);
    events := [Read(0, 0, None), Do(request), Write(0)];
    ReadDoWrite(db, market, 0, 0, request);
    var after := Execute(db, market, request).0;
    assert after.scenarios[0].plan != p;
    assert SaveRow(after, Change(0, 0, None, row)).scenarios == db.scenarios;
  }

  lemma ReadDoWrite(db: Db, market: Market, user: UserId, scenario: ScenarioId, request: Request)
    requires OwnedBy(db, user, scenario).Some?
    ensures var c := Change(user, scenario, None, db.scenarios[scenario]);
            StateAfter(db, market, [Read(user, scenario, None), Do(request), Write(0)])
            == Some(State(SaveRow(Execute(db, market, request).0, c), [None]))
  {
    var c := Change(user, scenario, None, db.scenarios[scenario]);
    var events := [Read(user, scenario, None), Do(request), Write(0)];
    assert [] + [Some(c)] == [Some(c)] && [Some(c)][0 := None] == [None];
    assert events[..1][..0] == [] && events[..2][..1] == events[..1] && events[..3] == events;
    assert StateAfter(db, market, events[..1]) == Some(State(db, [Some(c)]));
    assert StateAfter(db, market, events[..2]) == Some(State(Execute(db, market, request).0, [Some(c)]));
  }

  // A scenario deleted in between is back, without its purchase records.
  lemma StaleSaveRestores(s: State, market: Market, user: UserId, scenario: ScenarioId, status: Option<Status>)
    requires OwnedBy(s.db, user, scenario).Some?
    ensures var k := |s.changes|;
            var read := Apply(s, market, Read(user, scenario, status)).value;
            var gone := Apply(read, market, DeleteScenario(user, scenario)).value;
            && scenario !in gone.db.scenarios && Apply(gone, market, Write(k)).Some?
            && var after := Apply(gone, market, Write(k)).value.db;
               scenario in after.scenarios && Owned(after, scenario) == {}
  {
    var read := Apply(s, market, Read(user, scenario, status)).value;
    var gone := Apply(read, market, DeleteScenario(user, scenario)).value;
    assert forall id :: (scenario, id) !in gone.db.purchases;
  }
}
