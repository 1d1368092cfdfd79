/**
 Account requests that overlap. Creating and renaming a manual account guard the name first and
 save the row later, with nothing locked in between; a rename loads the row again before it saves
 it whole. A sync and a deletion are one step each.
 */
module AccountProtocol {
  import opened Wrappers
  import opened BankAccounts

  // A request between its guard and its save. A copy that is to be saved carries the new name.
  datatype Pending =
    | Creating(user: UserId, bank: string, number: string)
    | Renaming(user: UserId, id: nat, given: string)
    | Saving(copy: Account)
    | Done

  datatype State = State(table: Table, pending: seq<Pending>)

  datatype Event =
    | GuardCreate(user: UserId, given: string, number: string)
    | GuardRename(user: UserId, id: nat, given: string)
    | Continue(k: nat)
    | Erase(user: UserId, id: nat)
    | Connect(connection: Connection, reports: seq<Report>)

  const Initial := State(Table([], 0), [])

  // ---------- Steps ----------

  function WithId(accounts: seq<Account>, id: nat): (k: nat)
    ensures k <= |accounts|
    ensures k < |accounts| ==> accounts[k].id == id
    ensures forall i :: 0 <= i < k ==> accounts[i].id != id
  {
    if accounts == [] || accounts[0].id == id then 0 else 1 + WithId(accounts[1..], id)
  }

  // Saving a whole row puts it back when it has been deleted meanwhile.
  function Save(t: Table, copy: Account): Table {
    var k := WithId(t.accounts, copy.id);
    t.(accounts := if k < |t.accounts| then t.accounts[k := copy] else t.accounts + [copy])
  }

  function Insert(t: Table, user: UserId, bank: string, number: string): Table {
    Table(t.accounts + [Account(t.next, user, bank, number, Manual)], t.next + 1)
  }

  function Outcome(t: Table, r: Result<Table, Refusal>): Table {
    if r.Ok? then r.value else t
  }

  function Admit(s: State, p: Pending): State {
    s.(pending := s.pending + [p])
  }

  function Apply(s: State, e: Event): Option<State> {
    var t := s.table;
    match e
    case GuardCreate(user, given, number) =>
      var refused := Trim(given) == "" || AlreadySynced(t, user, Trim(given));
      Some(if refused then s else Admit(s, Creating(user, Trim(given), number)))
    case GuardRename(user, id, given) =>
      var k := Find(t.accounts, id, user);
      var refused := k == |t.accounts| || t.accounts[k].link.Synced? || (given != "" && AlreadySynced(t, user, given));
      Some(if refused then s else Admit(s, Renaming(user, id, given)))
    case Continue(k) => if k < |s.pending| then Proceed(s, k) else None
    case Erase(user, id) => Some(s.(table := Outcome(t, Execute(t, Delete(user, id)))))
    case Connect(connection, reports) => Some(s.(table := ApplySynced(t, connection, reports)))
  }

  function Proceed(s: State, k: nat): Option<State>
    requires k < |s.pending|
  {
    match s.pending[k]
    case Creating(user, bank, number) =>
      Some(State(Insert(s.table, user, bank, number), s.pending[k := Done]))
    case Renaming(user, id, given) =>
      var i := Find(s.table.accounts, id, user);
      var refused := i == |s.table.accounts| || Trim(given) == "";
      Some(s.(pending := s.pending[k := if refused then Done else Saving(s.table.accounts[i].(bank := Trim(given)))]))
    case Saving(copy) => Some(State(Save(s.table, copy), s.pending[k := Done]))
    case Done => None
  }

  function StateAfter(events: seq<Event>): Option<State> {
    if events == [] then Some(Initial)
    else
      var before := StateAfter(events[..|events| - 1]);
      if before.None? then None else Apply(before.value, events[|events| - 1])
  }

  // ---------- Ids ----------

  predicate IdsSound(t: Table) {
    && (forall i :: 0 <= i < |t.accounts| ==> t.accounts[i].id < t.next)
    && forall i, j :: 0 <= i < j < |t.accounts| ==> t.accounts[i].id != t.accounts[j].id
  }

  // The row a rename works on is a manual one, as long as it is there.
  predicate ManualId(t: Table, id: nat) {
    id < t.next && forall i :: 0 <= i < |t.accounts| && t.accounts[i].id == id ==> t.accounts[i].link.Manual?
  }

  predicate PendingSound(t: Table, p: Pending) {
    match p
    case Renaming(_, id, _) => ManualId(t, id)
    case Saving(copy) => copy.link.Manual? && ManualId(t, copy.id)
    case _ => true
  }

  predicate Sound(s: State) {
    IdsSound(s.table) && forall k :: 0 <= k < |s.pending| ==> PendingSound(s.table, s.pending[k])
  }

  // Every account of t' is a new one or has its id and link from t.
  predicate Descends(t: Table, t': Table) {
    && t.next <= t'.next
    && forall i :: 0 <= i < |t'.accounts| ==> t'.accounts[i].id >= t.next || Inherits(t.accounts, t'.accounts[i])
  }

  predicate SameIdAndKind(a: Account, b: Account) {
    a.id == b.id && a.link.Manual? == b.link.Manual?
  }

  predicate Inherits(accounts: seq<Account>, a: Account) {
    exists j :: 0 <= j < |accounts| && SameIdAndKind(accounts[j], a)
  }

  lemma DescendsKeepsManual(t: Table, t': Table)
    requires Descends(t, t')
    ensures forall id :: ManualId(t, id) ==> ManualId(t', id)
  {
    forall id, i | ManualId(t, id) && 0 <= i < |t'.accounts| && t'.accounts[i].id == id
      ensures t'.accounts[i].link.Manual?
    {
      var j :| 0 <= j < |t.accounts| && SameIdAndKind(t.accounts[j], t'.accounts[i]);
    }
  }

  lemma {:induction false} ClearedDescends(accounts: seq<Account>, user: UserId, bank: string, next: nat)
    requires IdsSound(Table(accounts, next))
    ensures IdsSound(Table(WithoutShadows(accounts, user, bank), next))
  {
    if accounts != [] {
      ClearedDescends(accounts[1..], user, bank, next);
      ClearedRows(accounts[1..], user, bank);
      var rest := WithoutShadows(accounts[1..], user, bank);
      forall i | 0 <= i < |rest|
        ensures rest[i].id != accounts[0].id
      {
        assert rest[i] in accounts[1..];
        var j :| 0 <= j < |accounts[1..]| && accounts[1..][j] == rest[i];
        assert accounts[j + 1] == rest[i];
      }
    }
  }

  lemma UpsertSound(t: Table, c: Connection, r: Report)
    requires IdsSound(t)
    ensures IdsSound(Upsert(t, c, r)) && Descends(t, Upsert(t, c, r))
  {
    var t' := Upsert(t, c, r);
    forall i | 0 <= i < |t'.accounts|
      ensures t'.accounts[i].id >= t.next || Inherits(t.accounts, t'.accounts[i])
    {
      if i < |t.accounts| {
        assert SameIdAndKind(t.accounts[i], t'.accounts[i]);
      }
    }
  }

  lemma DescendsOn(t: Table, mid: Table, t': Table)
    requires Descends(t, mid) && Descends(mid, t')
    ensures Descends(t, t')
  {
    forall i | 0 <= i < |t'.accounts| && t'.accounts[i].id < t.next
      ensures Inherits(t.accounts, t'.accounts[i])
    {
      var j :| 0 <= j < |mid.accounts| && SameIdAndKind(mid.accounts[j], t'.accounts[i]);
      assert Inherits(t.accounts, mid.accounts[j]);
    }
  }

  lemma {:induction false} UpsertAllSound(t: Table, c: Connection, reports: seq<Report>)
    requires IdsSound(t)
    ensures IdsSound(UpsertAll(t, c, reports)) && Descends(t, UpsertAll(t, c, reports))
  {
    if reports == [] {
      assert forall i :: 0 <= i < |t.accounts| ==> Inherits(t.accounts, t.accounts[i]);
    } else {
      var mid := UpsertAll(t, c, reports[..|reports| - 1]);
      UpsertAllSound(t, c, reports[..|reports| - 1]);
      UpsertSound(mid, c, reports[|reports| - 1]);
      DescendsOn(t, mid, UpsertAll(t, c, reports));
    }
  }

  lemma SyncSound(t: Table, c: Connection, reports: seq<Report>)
    requires IdsSound(t)
    ensures IdsSound(ApplySynced(t, c, reports)) && Descends(t, ApplySynced(t, c, reports))
  {
    var mid := Cleared(t, c, reports);
    if reports != [] {
      ClearedDescends(t.accounts, c.user, reports[0].bank, t.next);
      ClearedRows(t.accounts, c.user, reports[0].bank);
    }
    forall i | 0 <= i < |mid.accounts|
      ensures Inherits(t.accounts, mid.accounts[i])
    {
      assert mid.accounts[i] in t.accounts;
    }
    UpsertAllSound(mid, c, reports);
    DescendsOn(t, mid, ApplySynced(t, c, reports));
  }

  lemma SoundStep(s: State, e: Event)
    requires Sound(s) && Apply(s, e).Some?
    ensures Sound(Apply(s, e).value)
  {
    var t, s' := s.table, Apply(s, e).value;
    match e
    case Connect(connection, reports) =>
      SyncSound(t, connection, reports);
      DescendsKeepsManual(t, s'.table);
      assert forall k :: 0 <= k < |s.pending| ==> PendingSound(t, s.pending[k]);
    case Continue(k) => ProceedSound(s, k);
    case Erase(user, id) => EraseSound(s, user, id);
    case _ => GuardSound(s, e);
  }

  lemma GuardSound(s: State, e: Event)
    requires Sound(s) && (e.GuardCreate? || e.GuardRename?)
    ensures Sound(Apply(s, e).value)
  {
    var s' := Apply(s, e).value;
    if s' != s {
      var p := s'.pending[|s.pending|];
      if p.Renaming? {
        var k := Find(s.table.accounts, p.id, p.user);
        assert forall i :: 0 <= i < |s.table.accounts| && s.table.accounts[i].id == p.id ==> i == k;
      }
      assert PendingSound(s.table, p);
    }
  }

  lemma EraseSound(s: State, user: UserId, id: nat)
    requires Sound(s)
    ensures Sound(Apply(s, Erase(user, id)).value)
  {
    var t, t' := s.table, Apply(s, Erase(user, id)).value.table;
    var k := Find(t.accounts, id, user);
    if t' != t {
      forall i | 0 <= i < |t'.accounts|
        ensures t'.accounts[i] == t.accounts[if i < k then i else i + 1] && Inherits(t.accounts, t'.accounts[i])
      {
      }
      DescendsKeepsManual(t, t');
      assert forall j :: 0 <= j < |s.pending| ==> PendingSound(t, s.pending[j]);
    }
  }

  lemma ProceedSound(s: State, k: nat)
    requires Sound(s) && k < |s.pending| && Proceed(s, k).Some?
    ensures Sound(Proceed(s, k).value)
  {
    var t, s' := s.table, Proceed(s, k).value;
    assert PendingSound(t, s.pending[k]);
    forall i | 0 <= i < |s.pending|
      ensures PendingSound(s'.table, s'.pending[i])
    {
      assert PendingSound(t, s.pending[i]);
    }
  }

  lemma {:induction false} RunsAreSound(events: seq<Event>)
    requires StateAfter(events).Some?
    ensures Sound(StateAfter(events).value)
  {
    if events != [] {
      RunsAreSound(events[..|events| - 1]);
      SoundStep(StateAfter(events[..|events| - 1]).value, events[|events| - 1]);
    }
  }

  // ---------- When a save breaks the rule ----------

  // Saving a new manual row keeps banks exclusive exactly when its name is not synced by then.
  lemma InsertExactly(t: Table, user: UserId, bank: string, number: string)
    requires NoShadow(t)
    ensures NoShadow(Insert(t, user, bank, number)) <==> !AlreadySynced(t, user, bank)
  {
    var after, n := Insert(t, user, bank, number).accounts, |t.accounts|;
    if AlreadySynced(t, user, bank) {
      var j :| 0 <= j < n && IsSyncedAs(t.accounts[j], user, bank);
      assert !Apart(after[n], after[j]);
    } else {
      forall i, j | 0 <= i < |after| && 0 <= j < |after|
        ensures Apart(after[i], after[j])
      {
        assert i < n && j < n ==> Apart(t.accounts[i], t.accounts[j]);
      }
    }
  }

  // So does saving a renamed one, wherever it goes.
  lemma SaveExactly(t: Table, copy: Account)
    requires NoShadow(t) && copy.link.Manual? && ManualId(t, copy.id)
    ensures NoShadow(Save(t, copy)) <==> !AlreadySynced(t, copy.user, copy.bank)
  {
    var after, k := Save(t, copy).accounts, WithId(t.accounts, copy.id);
    if AlreadySynced(t, copy.user, copy.bank) {
      var j :| 0 <= j < |t.accounts| && IsSyncedAs(t.accounts[j], copy.user, copy.bank);
      assert after[j] == t.accounts[j] && !Apart(after[k], after[j]);
    } else {
      forall i, j | 0 <= i < |after| && 0 <= j < |after|
        ensures Apart(after[i], after[j])
      {
        assert i < |t.accounts| && j < |t.accounts| ==> Apart(t.accounts[i], t.accounts[j]);
      }
    }
  }

  // What can be checked at the moment of each step.
  predicate Careful(s: State, e: Event) {
    match e
    case Connect(connection, reports) => ReportsClear(s.table, connection, reports)
    case Continue(k) => k < |s.pending| ==> SavesFreeName(s.table, s.pending[k])
    case _ => true
  }

  predicate SavesFreeName(t: Table, p: Pending) {
    match p
    case Creating(user, bank, _) => !AlreadySynced(t, user, bank)
    case Saving(copy) => !AlreadySynced(t, copy.user, copy.bank)
    case _ => true
  }

  predicate AllCareful(events: seq<Event>)
    requires StateAfter(events).Some?
  {
    events == [] ||
    (var before := events[..|events| - 1];
     AllCareful(before) && Careful(StateAfter(before).value, events[|events| - 1]))
  }

  predicate AlwaysNoShadow(events: seq<Event>)
    requires StateAfter(events).Some?
  {
    NoShadow(StateAfter(events).value.table) && (events == [] || AlwaysNoShadow(events[..|events| - 1]))
  }

  lemma NoShadowStep(s: State, e: Event)
    requires Sound(s) && NoShadow(s.table) && Apply(s, e).Some?
    ensures NoShadow(Apply(s, e).value.table) <==> Careful(s, e)
  {
    match e
    case Connect(connection, reports) => SyncKeepsNoShadowExactly(s.table, connection, reports);
    case Continue(k) =>
      assert PendingSound(s.table, s.pending[k]);
      if s.pending[k].Creating? {
        InsertExactly(s.table, s.pending[k].user, s.pending[k].bank, s.pending[k].number);
      } else if s.pending[k].Saving? {
        SaveExactly(s.table, s.pending[k].copy);
      }
    case Erase(user, id) =>
      if Execute(s.table, Delete(user, id)).Ok? {
        ManualKeepsNoShadow(s.table, Delete(user, id));
      }
    case _ =>
  }

  // Throughout any interleaving a connected bank has no manual account beside it if and only if
  // every sync is clear and every save stores a name that is not synced at the time of the save.
  lemma {:induction false} OverlapsKeepNoShadowExactly(events: seq<Event>)
    requires StateAfter(events).Some?
    ensures AlwaysNoShadow(events) <==> AllCareful(events)
  {
    if events != [] {
      var before := events[..|events| - 1];
      OverlapsKeepNoShadowExactly(before);
      if AlwaysNoShadow(before) {
        RunsAreSound(before);
        NoShadowStep(StateAfter(before).value, events[|events| - 1]);
      }
    }
  }

  // ---------- A sync between guard and save ----------

  // Whatever the table, a creation that has passed its guard shadows the bank that the user
  // connects before it is saved, although the sync reports that bank alone.
  lemma OvertakenShadows(s: State, k: nat, connection: ConnectionId, external: string, account: string)
    requires k < |s.pending| && s.pending[k].Creating?
    ensures var p := s.pending[k];
            var connect := Connect(Connection(connection, p.user), [Report(external, p.bank, account)]);
            && Apply(s, connect).Some? && Apply(Apply(s, connect).value, Continue(k)).Some?
            && !NoShadow(Apply(Apply(s, connect).value, Continue(k)).value.table)
  {
    var p := s.pending[k];
    var c, reports := Connection(connection, p.user), [Report(external, p.bank, account)];
    var t := ApplySynced(s.table, c, reports);
    ReportedIsStored(Cleared(s.table, c, reports), c, reports, 0);
    var j :| 0 <= j < |t.accounts| && StoredAs(t.accounts[j], c, reports[0]);
    var after := Insert(t, p.user, p.bank, p.number).accounts;
    assert after[j] == t.accounts[j] && !Apart(after[|t.accounts|], after[j]);
  }

  // Such a run exists: create, connect, save.
  lemma OvertakenIsReached() returns (events: seq<Event>)
    ensures StateAfter(events).Some? && !NoShadow(StateAfter(events).value.table)
  {
    var s1 := State(Table([], 0), [Creating(0, "cib", "1")]);
    var connect := Connect(Connection(0, 0), [Report("x", "cib", "2")]);
    var s2 := Apply(s1, connect).value;
    assert IsTrimmed("cib");
    assert Initial.pending + [Creating(0, "cib", "1")] == s1.pending;
    OvertakenShadows(s1, 0, 0, "x", "2");
    RunOneMore([], GuardCreate(0, "cib", "1"), s1);
    RunOneMore([GuardCreate(0, "cib", "1")], connect, s2);
    RunOneMore([GuardCreate(0, "cib", "1"), connect], Continue(0), Apply(s2, Continue(0)).value);
    events := [GuardCreate(0, "cib", "1"), connect, Continue(0)];
    assert [] + [events[0]] == [events[0]] && [events[0]] + [connect] == [events[0], connect];
    assert [events[0], connect] + [Continue(0)] == events;
  }

  lemma RunOneMore(events: seq<Event>, e: Event, s: State)
    requires StateAfter(events).Some? && Apply(StateAfter(events).value, e) == Some(s)
    ensures StateAfter(events + [e]) == Some(s)
  {
    assert (events + [e])[..|events + [e]| - 1] == events;
  }

  // ---------- Requests that nothing interrupts ----------

  // A guard followed at once by its save is the whole request.
  lemma CreateUninterrupted(s: State, user: UserId, given: string, number: string)
    ensures var guarded := Apply(s, GuardCreate(user, given, number)).value;
            var whole := Execute(s.table, Create(user, given, number));
            && (whole.Err? ==> guarded == s)
            && (whole.Ok? ==>
                  && Apply(guarded, Continue(|s.pending|)).Some?
                  && Apply(guarded, Continue(|s.pending|)).value.table == whole.value)
  {
  }

  lemma RenameUninterrupted(s: State, user: UserId, id: nat, given: string)
    requires IdsSound(s.table)
    ensures var k, whole := |s.pending|, Execute(s.table, Rename(user, id, given));
            var guarded := Apply(s, GuardRename(user, id, given)).value;
            && guarded.table == s.table
            && (whole.Err? ==> guarded == s || Apply(guarded, Continue(k)) == Some(s.(pending := s.pending + [Done])))
            && (whole.Ok? ==>
                  && Apply(guarded, Continue(k)).Some?
                  && var loaded := Apply(guarded, Continue(k)).value;
                     && Apply(loaded, Continue(k)).Some?
                     && Apply(loaded, Continue(k)).value.table == whole.value)
  {
    var i := Find(s.table.accounts, id, user);
    if i < |s.table.accounts| {
      assert WithId(s.table.accounts, id) == i;
    }
    assert (s.pending + [Renaming(user, id, given)])[|s.pending| := Done] == s.pending + [Done];
  }

  // A row deleted between its load and its save comes back with the save.
  lemma DeletedComesBack(s: State, k: nat)
    requires k < |s.pending| && s.pending[k].Saving?
    ensures var copy := s.pending[k].copy;
            var erased := Apply(s, Erase(copy.user, copy.id)).value;
            && Apply(erased, Continue(k)).Some?
            && copy in Apply(erased, Continue(k)).value.table.accounts
  {
    var copy := s.pending[k].copy;
    var t := Apply(s, Erase(copy.user, copy.id)).value.table;
    assert Save(t, copy).accounts[WithId(t.accounts, copy.id)] == copy;
  }
}
