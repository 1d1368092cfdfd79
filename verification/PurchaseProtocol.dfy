/**
 Portfolio requests as concurrent database transactions. A transaction locks the scenario
 row, a purchase then locks the user row and the holding row; every lock is kept to the end
 of the transaction, and writes become visible at its commit. A lock is held exactly in the
 phases between taking it and finishing.
 */
module PurchaseProtocol {
  import opened Wrappers
  import opened Portfolio
  import H = Holdings

  datatype Phase =
    | Ready
    | ScenarioLocked(snap: Scenario)
    | Cleared(snap: Scenario)
    | UserLocked(snap: Scenario)
    | HoldingRead(snap: Scenario, held: Option<H.Holding>)
    | Finished(response: Response)
    | RolledBack(conflict: bool)

  datatype Tx = Tx(req: Request, phase: Phase)

  // `order` lists the finished transactions as they committed; it is history, not state the
  // code keeps.
  datatype State = State(db: Db, txs: seq<Tx>, order: seq<nat>)

  predicate Ended(t: Tx) {
    t.phase.Finished? || t.phase.RolledBack?
  }

  predicate HoldsScenario(t: Tx, scenario: ScenarioId) {
    !Ended(t) && !t.phase.Ready? && t.req.scenario == scenario
  }

  predicate HoldsUser(t: Tx, user: UserId) {
    (t.phase.UserLocked? || t.phase.HoldingRead?) && t.req.user == user
  }

  predicate HoldsHolding(t: Tx, key: HoldingKey) {
    t.phase.HoldingRead? && t.phase.held.Some? && Key(t.req) == key
  }

  function Key(req: Request): HoldingKey {
    (req.user, req.instrument)
  }

  predicate ScenarioFree(s: State, scenario: ScenarioId) {
    forall j :: 0 <= j < |s.txs| ==> !HoldsScenario(s.txs[j], scenario)
  }

  predicate UserFree(s: State, user: UserId) {
    forall j :: 0 <= j < |s.txs| ==> !HoldsUser(s.txs[j], user)
  }

  predicate HoldingFree(s: State, key: HoldingKey) {
    forall j :: 0 <= j < |s.txs| ==> !HoldsHolding(s.txs[j], key)
  }

  // ---------- Steps ----------

  function Move(s: State, i: nat, phase: Phase): State
    requires i < |s.txs|
  {
    s.(txs := s.txs[i := s.txs[i].(phase := phase)])
  }

  function Commit(s: State, i: nat, db: Db, response: Response): State
    requires i < |s.txs|
  {
    Move(s, i, Finished(response)).(db := db, order := s.order + [i])
  }

  // The next step of transaction i, None while it waits for a lock or has ended. What it reads
  // it reads from the committed database at that moment; what it computes it computes from the
  // rows it read earlier.
  function Forward(s: State, market: Market, i: nat): Option<State>
    requires i < |s.txs|
  {
    var req := s.txs[i].req;
    match s.txs[i].phase
    case Ready =>
      var found := Lookup(s.db, req);
      if found.None? then Some(Commit(s, i, s.db, NotFound))
      else if ScenarioFree(s, req.scenario) then Some(Move(s, i, ScenarioLocked(found.value)))
      else None
    case ScenarioLocked(snap) =>
      var owned := Owned(s.db, req.scenario);
      if req.Buy? then
        var stop := PurchaseStop(snap, owned, market, req);
        if stop.Some? then Some(Commit(s, i, s.db, stop.value)) else Some(Move(s, i, Cleared(snap)))
      else if req.scenario !in s.db.scenarios then Some(Move(s, i, RolledBack(true)))
      else
        var outcome := PlanOutcome(snap, owned, market, req);
        Some(Commit(s, i, ApplyChange(s.db, req.scenario, outcome.1), outcome.0))
    case Cleared(snap) =>
      if UserFree(s, req.user) then Some(Move(s, i, UserLocked(snap))) else None
    case UserLocked(snap) =>
      var held := Get(s.db.holdings, Key(req));
      if held.None? || HoldingFree(s, Key(req)) then Some(Move(s, i, HoldingRead(snap, held))) else None
    case HoldingRead(snap, held) =>
      // A second row for the user and instrument, or for the scenario and instrument, violates
      // a uniqueness constraint.
      if !req.Buy? || (held.None? && Key(req) in s.db.holdings)
         || (req.scenario, req.instrument) in s.db.purchases
      then Some(Move(s, i, RolledBack(true)))
      else Some(Commit(s, i, RecordPurchase(s.db, req, held), Recorded))
    case Finished(_) => None
    case RolledBack(_) => None
  }

  predicate Step(s: State, s': State, market: Market, i: nat) {
    i < |s.txs| &&
    (Forward(s, market, i) == Some(s')
     || (!Ended(s.txs[i]) && s' == Move(s, i, RolledBack(false))))
  }

  predicate Initial(s: State) {
    s.order == [] && forall i :: 0 <= i < |s.txs| ==> s.txs[i].phase == Ready
  }

  predicate Run(run: seq<State>, market: Market) {
    && run != [] && Initial(run[0])
    && forall k :: 0 <= k < |run| - 1 ==> Next(run[k], run[k + 1], market)
  }

  predicate Next(s: State, s': State, market: Market) {
    exists i :: 0 <= i < |s.txs| && Step(s, s', market, i)
  }

  // ---------- Invariant ----------

  function Requests(s: State, order: seq<nat>): seq<Request>
    requires forall k :: 0 <= k < |order| ==> order[k] < |s.txs|
  {
    seq(|order|, k requires 0 <= k < |order| => s.txs[order[k]].req)
  }

  ghost predicate Exclusive(s: State) {
    && (forall i, j, x :: 0 <= i < j < |s.txs| && HoldsScenario(s.txs[i], x) ==> !HoldsScenario(s.txs[j], x))
    && (forall i, j, u :: 0 <= i < j < |s.txs| && HoldsUser(s.txs[i], u) ==> !HoldsUser(s.txs[j], u))
  }

  // What a transaction has read is still what the database says.
  predicate Fresh(t: Tx, db: Db, market: Market) {
    match t.phase
    case Ready => true
    case ScenarioLocked(snap) => Lookup(db, t.req) == Some(snap)
    case Cleared(snap) => FreshPurchase(t.req, snap, db, market)
    case UserLocked(snap) => FreshPurchase(t.req, snap, db, market)
    case HoldingRead(snap, held) => FreshPurchase(t.req, snap, db, market) && held == Get(db.holdings, Key(t.req))
    case Finished(_) => true
    case RolledBack(conflict) => !conflict
  }

  predicate FreshPurchase(req: Request, snap: Scenario, db: Db, market: Market) {
    && req.Buy? && Lookup(db, req) == Some(snap)
    && PurchaseStop(snap, Owned(db, req.scenario), market, req) == None
  }

  // The database and every answer are those of running the finished requests one by one, in
  // the order they committed.
  predicate Serial(s: State, db0: Db, market: Market) {
    && (forall k :: 0 <= k < |s.order| ==> s.order[k] < |s.txs|)
    && (forall j, k :: 0 <= j < k < |s.order| ==> s.order[j] != s.order[k])
    && (forall i :: 0 <= i < |s.txs| ==> (s.txs[i].phase.Finished? <==> i in s.order))
    && s.db == RunAll(db0, market, Requests(s, s.order))
    && forall k :: 0 <= k < |s.order| ==>
         s.txs[s.order[k]].phase == Finished(ResponseAt(db0, market, Requests(s, s.order), k))
  }

  ghost predicate Inv(s: State, db0: Db, market: Market) {
    && Exclusive(s)
    && (forall i :: 0 <= i < |s.txs| ==> Fresh(s.txs[i], s.db, market))
    && Serial(s, db0, market)
  }

  lemma InitialInv(s: State, market: Market)
    requires Initial(s)
    ensures Inv(s, s.db, market)
  {
    assert Requests(s, []) == [];
  }

  // A step that does not commit keeps the serial history.
  lemma MoveKeepsSerial(s: State, db0: Db, market: Market, i: nat, phase: Phase)
    requires Serial(s, db0, market) && i < |s.txs|
    requires !s.txs[i].phase.Finished? && !phase.Finished?
    ensures Serial(Move(s, i, phase), db0, market)
  {
    assert Requests(Move(s, i, phase), s.order) == Requests(s, s.order);
  }

  // A commit that does what the request does alone extends the serial history.
  lemma CommitKeepsSerial(s: State, db0: Db, market: Market, i: nat)
    requires Serial(s, db0, market) && i < |s.txs| && !s.txs[i].phase.Finished?
    ensures var (db, response) := Execute(s.db, market, s.txs[i].req);
            Serial(Commit(s, i, db, response), db0, market)
  {
    var (db, response) := Execute(s.db, market, s.txs[i].req);
    var s' := Commit(s, i, db, response);
    var before, after := Requests(s, s.order), Requests(s', s'.order);
    assert after == before + [s.txs[i].req];
    RunAllAppend(db0, market, before, s.txs[i].req);
    forall k | 0 <= k < |s'.order|
      ensures s'.txs[s'.order[k]].phase == Finished(ResponseAt(db0, market, after, k))
    {
      if k < |before| {
        assert s.order[k] != i;
      }
    }
  }

  // A commit of request `req` by the only holder of its locks leaves fresh what others read.
  lemma CommitKeepsFresh(t: Tx, req: Request, db: Db, market: Market)
    requires Fresh(t, db, market)
    requires !HoldsScenario(t, req.scenario)
    requires req.Buy? ==> !HoldsUser(t, req.user)
    ensures Fresh(t, Execute(db, market, req).0, market)
  {
    var after := Execute(db, market, req).0;
    if !Ended(t) && !t.phase.Ready? {
      assert t.req.scenario != req.scenario;
      assert Lookup(after, t.req) == Lookup(db, t.req);
      assert Owned(after, t.req.scenario) == Owned(db, t.req.scenario) by {
        assert forall key: PurchaseKey :: key.0 == t.req.scenario ==> (key in after.purchases <==> key in db.purchases);
      }
      if t.phase.HoldingRead? {
        assert Get(after.holdings, Key(t.req)) == Get(db.holdings, Key(t.req));
      }
    }
  }

  // Committing is what Execute does on the database as it stands, because what was read is fresh.
  lemma ForwardIsExecute(s: State, market: Market, i: nat)
    requires i < |s.txs| && Fresh(s.txs[i], s.db, market)
    requires Forward(s, market, i).Some?
    ensures var s' := Forward(s, market, i).value;
            if s'.txs[i].phase.Finished?
            then var (db, response) := Execute(s.db, market, s.txs[i].req);
                 s' == Commit(s, i, db, response)
            else s' == Move(s, i, s'.txs[i].phase) && Fresh(s'.txs[i], s.db, market)
  {
    if s.txs[i].phase.HoldingRead? {
      var req := s.txs[i].req;
      OwnedExactly(s.db, req.scenario, req.instrument);
    }
  }

  // A transaction may come to hold what it held or what nobody held.
  lemma TakingFreeIsExclusive(s: State, s': State, i: nat)
    requires i < |s.txs| == |s'.txs| && Exclusive(s)
    requires forall j :: 0 <= j < |s.txs| && j != i ==> s'.txs[j] == s.txs[j]
    requires forall x :: HoldsScenario(s'.txs[i], x) ==> HoldsScenario(s.txs[i], x) || ScenarioFree(s, x)
    requires forall u :: HoldsUser(s'.txs[i], u) ==> HoldsUser(s.txs[i], u) || UserFree(s, u)
    ensures Exclusive(s')
  {
  }

  lemma MoveKeepsExclusive(s: State, market: Market, i: nat)
    requires i < |s.txs| && Exclusive(s) && Forward(s, market, i).Some?
    ensures Exclusive(Forward(s, market, i).value)
  {
    var s' := Forward(s, market, i).value;
    ForwardChangesOne(s, market, i);
    TakingFreeIsExclusive(s, s', i);
  }

  lemma ForwardChangesOne(s: State, market: Market, i: nat)
    requires i < |s.txs| && Forward(s, market, i).Some?
    ensures var s' := Forward(s, market, i).value;
            && |s'.txs| == |s.txs|
            && (forall j :: 0 <= j < |s.txs| && j != i ==> s'.txs[j] == s.txs[j])
            && (forall x :: HoldsScenario(s'.txs[i], x) ==> HoldsScenario(s.txs[i], x) || ScenarioFree(s, x))
            && (forall u :: HoldsUser(s'.txs[i], u) ==> HoldsUser(s.txs[i], u) || UserFree(s, u))
  {
  }

  lemma ForwardKeepsInv(s: State, db0: Db, market: Market, i: nat)
    requires Inv(s, db0, market) && i < |s.txs| && Forward(s, market, i).Some?
    ensures Inv(Forward(s, market, i).value, db0, market)
  {
    var s' := Forward(s, market, i).value;
    ForwardIsExecute(s, market, i);
    MoveKeepsExclusive(s, market, i);
    if s'.txs[i].phase.Finished? {
      CommitKeepsSerial(s, db0, market, i);
      forall j | 0 <= j < |s'.txs|
        ensures Fresh(s'.txs[j], s'.db, market)
      {
        if j != i {
          OthersKeepFresh(s, market, i, j);
        }
      }
    } else {
      MoveKeepsSerial(s, db0, market, i, s'.txs[i].phase);
    }
  }

  lemma OthersKeepFresh(s: State, market: Market, i: nat, j: nat)
    requires i < |s.txs| && j < |s.txs| && i != j
    requires Exclusive(s) && Fresh(s.txs[i], s.db, market) && Fresh(s.txs[j], s.db, market)
    requires Forward(s, market, i).Some? && Forward(s, market, i).value.txs[i].phase.Finished?
    ensures Fresh(s.txs[j], Forward(s, market, i).value.db, market)
  {
    var t, req := s.txs[j], s.txs[i].req;
    ForwardIsExecute(s, market, i);
    var after := Forward(s, market, i).value.db;
    if after != s.db {
      assert HoldsScenario(s.txs[i], req.scenario);
      assert req.Buy? ==> HoldsUser(s.txs[i], req.user);
      CommitKeepsFresh(t, req, s.db, market);
    }
  }

  lemma StepKeepsInv(s: State, s': State, db0: Db, market: Market, i: nat)
    requires Inv(s, db0, market) && Step(s, s', market, i)
    ensures Inv(s', db0, market)
  {
    if Forward(s, market, i) == Some(s') {
      ForwardKeepsInv(s, db0, market, i);
    } else {
      RollBackKeepsInv(s, db0, market, i);
    }
  }

  lemma RollBackKeepsInv(s: State, db0: Db, market: Market, i: nat)
    requires Inv(s, db0, market) && i < |s.txs| && !s.txs[i].phase.Finished?
    ensures Inv(Move(s, i, RolledBack(false)), db0, market)
  {
    var s' := Move(s, i, RolledBack(false));
    MoveKeepsSerial(s, db0, market, i, RolledBack(false));
    TakingFreeIsExclusive(s, s', i);
    assert forall j :: 0 <= j < |s.txs| && j != i ==> s'.txs[j] == s.txs[j];
  }

  // ---------- What violates uniqueness ----------

  // A transaction is marked as failed by a conflict exactly when it would insert a second holding of
  // the user and instrument, or a second purchase record of the scenario and instrument, or save a
  // scenario that is gone.
  lemma ConflictExactly(s: State, market: Market, i: nat)
    requires i < |s.txs| && Forward(s, market, i).Some?
    ensures var t, t' := s.txs[i], Forward(s, market, i).value.txs[i];
            && (t'.phase == RolledBack(true)
                <==> || (t.phase.HoldingRead? && t.req.Buy? && t.phase.held.None?
                         && (t.req.user, t.req.instrument) in s.db.holdings)
                     || (t.phase.HoldingRead? && t.req.Buy? && (t.req.scenario, t.req.instrument) in s.db.purchases)
                     || (t.phase.HoldingRead? && !t.req.Buy?)
                     || (t.phase.ScenarioLocked? && !t.req.Buy? && t.req.scenario !in s.db.scenarios))
            && t'.phase != RolledBack(false)
  {
  }

  // ---------- Who waits for whom ----------

  predicate InProgress(t: Tx) {
    !t.phase.Ready? && !t.phase.Finished? && !t.phase.RolledBack?
  }

  // Another transaction is in progress on the scenario, or has locked the user or the holding.
  predicate ScenarioTaken(s: State, req: Request) {
    exists j :: 0 <= j < |s.txs| && InProgress(s.txs[j]) && s.txs[j].req.scenario == req.scenario
  }

  predicate UserTaken(s: State, req: Request) {
    exists j :: 0 <= j < |s.txs| && (s.txs[j].phase.UserLocked? || s.txs[j].phase.HoldingRead?)
             && s.txs[j].req.user == req.user
  }

  predicate HoldingTaken(s: State, req: Request) {
    exists j :: 0 <= j < |s.txs| && s.txs[j].phase.HoldingRead? && s.txs[j].phase.held.Some?
             && s.txs[j].req.user == req.user && s.txs[j].req.instrument == req.instrument
  }

  // A transaction waits exactly for the row it is about to lock: an own scenario, the user, or a
  // holding that is there; otherwise it can move until it ends, and be rolled back at any time.
  lemma WaitsExactly(s: State, market: Market, i: nat)
    requires i < |s.txs|
    ensures var t := s.txs[i];
            Forward(s, market, i).None?
            <==> || t.phase.Finished? || t.phase.RolledBack?
                 || (t.phase.Ready? && t.req.scenario in s.db.scenarios
                     && s.db.scenarios[t.req.scenario].owner == t.req.user && ScenarioTaken(s, t.req))
                 || (t.phase.Cleared? && UserTaken(s, t.req))
                 || (t.phase.UserLocked? && (t.req.user, t.req.instrument) in s.db.holdings && HoldingTaken(s, t.req))
    ensures !s.txs[i].phase.Finished? && !s.txs[i].phase.RolledBack? ==>
              Step(s, Move(s, i, RolledBack(false)), market, i)
  {
    var req := s.txs[i].req;
    assert ScenarioFree(s, req.scenario) <==> !ScenarioTaken(s, req) by {
      assert forall j :: 0 <= j < |s.txs| ==>
        (HoldsScenario(s.txs[j], req.scenario) <==> InProgress(s.txs[j]) && s.txs[j].req.scenario == req.scenario);
    }
    assert UserFree(s, req.user) <==> !UserTaken(s, req) by {
      assert forall j :: 0 <= j < |s.txs| ==>
        (HoldsUser(s.txs[j], req.user)
         <==> (s.txs[j].phase.UserLocked? || s.txs[j].phase.HoldingRead?) && s.txs[j].req.user == req.user);
    }
    assert HoldingFree(s, Key(req)) <==> !HoldingTaken(s, req) by {
      assert forall j :: 0 <= j < |s.txs| ==>
        (HoldsHolding(s.txs[j], Key(req))
         <==> s.txs[j].phase.HoldingRead? && s.txs[j].phase.held.Some? && s.txs[j].req.user == req.user
              && s.txs[j].req.instrument == req.instrument);
    }
  }

  // ---------- Theorems ----------

  predicate NoConflict(s: State) {
    forall i :: 0 <= i < |s.txs| ==> s.txs[i].phase != RolledBack(true)
  }

  // A run without its last step is a run.
  lemma RunPrefix(run: seq<State>, market: Market)
    requires Run(run, market) && |run| > 1
    ensures Run(run[..|run| - 1], market)
    ensures run[..|run| - 1][|run| - 2] == run[|run| - 2]
    ensures Next(run[|run| - 2], run[|run| - 1], market)
  {
    var before := run[..|run| - 1];
    forall k | 0 <= k < |before| - 1
      ensures Next(before[k], before[k + 1], market)
    {
      assert Next(run[k], run[k + 1], market);
    }
  }

  lemma NextKeepsInv(s: State, s': State, db0: Db, market: Market)
    requires Inv(s, db0, market) && Next(s, s', market)
    ensures Inv(s', db0, market)
  {
    var i :| 0 <= i < |s.txs| && Step(s, s', market, i);
    StepKeepsInv(s, s', db0, market, i);
  }

  // Every interleaving is serialisable, and no transaction is lost to a uniqueness conflict.
  lemma {:induction false} RunsAreSerial(run: seq<State>, market: Market)
    requires Run(run, market)
    ensures Inv(run[|run| - 1], run[0].db, market)
    ensures NoConflict(run[|run| - 1])
  {
    if |run| == 1 {
      InitialInv(run[0], market);
    } else {
      RunPrefix(run, market);
      RunsAreSerial(run[..|run| - 1], market);
      NextKeepsInv(run[|run| - 2], run[|run| - 1], run[0].db, market);
    }
    FreshHasNoConflict(run[|run| - 1], market);
  }

  lemma FreshHasNoConflict(s: State, market: Market)
    requires forall i :: 0 <= i < |s.txs| ==> Fresh(s.txs[i], s.db, market)
    ensures NoConflict(s)
  {
  }

  // After any interleaving a holding is the fold, in commit order, of exactly the purchases
  // answered as recorded; none is lost and none is folded twice.
  lemma NoLostUpdate(run: seq<State>, market: Market, key: HoldingKey)
    requires Run(run, market)
    ensures var start, end := run[0], run[|run| - 1];
            && Serial(end, start.db, market)
            && var bought := BoughtInto(start.db, market, Requests(end, end.order), key);
               && Get(end.db.holdings, key) == H.FoldAll(Get(start.db.holdings, key), bought)
               && H.CostWithinBound(Get(start.db.holdings, key), bought, Get(end.db.holdings, key))
  {
    var start, end := run[0], run[|run| - 1];
    RunsAreSerial(run, market);
    var reqs := Requests(end, end.order);
    HoldingIsFold(start.db, market, reqs, key);
    H.AverageErrorBound(Get(start.db.holdings, key), BoughtInto(start.db, market, reqs, key));
  }

  // While some transaction has not ended, some transaction can move forward. The lock order
  // scenario, user, holding is what makes the chain of waits end.
  lemma SomeoneMoves(s: State, db0: Db, market: Market, i: nat) returns (m: nat)
    requires Inv(s, db0, market) && i < |s.txs| && !Ended(s.txs[i])
    ensures m < |s.txs| && Forward(s, market, m).Some?
  {
    m := i;
    if s.txs[m].phase.Ready? && Forward(s, market, m).None? {
      m := ScenarioHolder(s, s.txs[m].req.scenario);
    }
    if s.txs[m].phase.Cleared? && Forward(s, market, m).None? {
      m := UserHolder(s, s.txs[m].req.user);
    }
    if s.txs[m].phase.UserLocked? {
      UserHolderMoves(s, market, m);
    } else if s.txs[m].phase.ScenarioLocked? || s.txs[m].phase.HoldingRead? {
      UnhinderedMoves(s, market, m);
    }
  }

  // These steps take no lock.
  lemma UnhinderedMoves(s: State, market: Market, m: nat)
    requires m < |s.txs| && (s.txs[m].phase.ScenarioLocked? || s.txs[m].phase.HoldingRead?)
    ensures Forward(s, market, m).Some?
  {
  }

  // So no run deadlocks.
  lemma NoDeadlock(run: seq<State>, market: Market, i: nat) returns (m: nat)
    requires Run(run, market) && i < |run[|run| - 1].txs| && !Ended(run[|run| - 1].txs[i])
    ensures m < |run[|run| - 1].txs| && Forward(run[|run| - 1], market, m).Some?
  {
    RunsAreSerial(run, market);
    m := SomeoneMoves(run[|run| - 1], run[0].db, market, i);
  }

  lemma ScenarioHolder(s: State, scenario: ScenarioId) returns (j: nat)
    requires !ScenarioFree(s, scenario)
    ensures j < |s.txs| && !Ended(s.txs[j]) && !s.txs[j].phase.Ready?
  {
    j :| 0 <= j < |s.txs| && HoldsScenario(s.txs[j], scenario);
  }

  lemma UserHolder(s: State, user: UserId) returns (j: nat)
    requires !UserFree(s, user)
    ensures j < |s.txs| && (s.txs[j].phase.UserLocked? || s.txs[j].phase.HoldingRead?)
  {
    j :| 0 <= j < |s.txs| && HoldsUser(s.txs[j], user);
  }

  // Whoever holds the user row finds the holding row free.
  lemma UserHolderMoves(s: State, market: Market, m: nat)
    requires Exclusive(s) && m < |s.txs| && s.txs[m].phase.UserLocked?
    ensures Forward(s, market, m).Some?
  {
    var req := s.txs[m].req;
    forall j | 0 <= j < |s.txs|
      ensures !HoldsHolding(s.txs[j], Key(req))
    {
      assert HoldsUser(s.txs[m], req.user);
      if j < m {
        assert !HoldsUser(s.txs[j], req.user);
      } else if m < j {
        assert !HoldsUser(s.txs[j], req.user);
      }
    }
  }

  // ---------- Termination ----------

  function PhasesLeft(t: Tx): nat {
    match t.phase
    case Ready => 5
    case ScenarioLocked(_) => 4
    case Cleared(_) => 3
    case UserLocked(_) => 2
    case HoldingRead(_, _) => 1
    case Finished(_) => 0
    case RolledBack(_) => 0
  }

  function StepsLeft(txs: seq<Tx>): nat {
    if txs == [] then 0 else PhasesLeft(txs[0]) + StepsLeft(txs[1..])
  }

  lemma {:induction false} ReplaceSteps(txs: seq<Tx>, i: nat, t: Tx)
    requires i < |txs|
    ensures StepsLeft(txs[i := t]) == StepsLeft(txs) - PhasesLeft(txs[i]) + PhasesLeft(t)
  {
    if i > 0 {
      assert txs[i := t][1..] == txs[1..][i - 1 := t];
      ReplaceSteps(txs[1..], i - 1, t);
    } else {
      assert txs[0 := t][1..] == txs[1..];
    }
  }

  // Every step brings the end nearer, so with SomeoneMoves every run that is not stopped ends
  // with all transactions ended, after at most five steps each.
  lemma StepShortens(s: State, s': State, market: Market, i: nat)
    requires Step(s, s', market, i)
    ensures StepsLeft(s'.txs) < StepsLeft(s.txs) && |s'.txs| == |s.txs|
  {
    StepChangesOne(s, s', market, i);
    ReplaceSteps(s.txs, i, s'.txs[i]);
  }

  lemma StepChangesOne(s: State, s': State, market: Market, i: nat)
    requires Step(s, s', market, i)
    ensures |s'.txs| == |s.txs| && s'.txs == s.txs[i := s'.txs[i]]
    ensures PhasesLeft(s'.txs[i]) < PhasesLeft(s.txs[i])
  {
  }

  lemma NextShortens(s: State, s': State, market: Market)
    requires Next(s, s', market)
    ensures StepsLeft(s'.txs) < StepsLeft(s.txs) && |s'.txs| == |s.txs|
  {
    var i :| 0 <= i < |s.txs| && Step(s, s', market, i);
    StepShortens(s, s', market, i);
  }

  lemma {:induction false} RunsAreShort(run: seq<State>, market: Market)
    requires Run(run, market)
    ensures |run| - 1 + StepsLeft(run[|run| - 1].txs) <= 5 * |run[0].txs|
    ensures |run[|run| - 1].txs| == |run[0].txs|
  {
    if |run| == 1 {
      AllReady(run[0].txs);
    } else {
      RunPrefix(run, market);
      RunsAreShort(run[..|run| - 1], market);
      NextShortens(run[|run| - 2], run[|run| - 1], market);
    }
  }

  lemma {:induction false} AllReady(txs: seq<Tx>)
    requires forall i :: 0 <= i < |txs| ==> txs[i].phase == Ready
    ensures StepsLeft(txs) == 5 * |txs|
  {
    if txs != [] {
      AllReady(txs[1..]);
    }
  }
}
