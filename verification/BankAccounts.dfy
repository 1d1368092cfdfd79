/**
 A user's bank accounts: manual ones, and those a bank connection delivers. Once a bank is
 connected, only sync may hold accounts under its name. Bank names are compared without regard
 to case, so a name here stands for its case-folded text; the surrounding space of a name given
 in a request is kept apart, because it is trimmed only on the way to the table. Each request
 here is carried out without interruption; AccountProtocol lets them overlap.
 */
module BankAccounts {
  import opened Wrappers

  type UserId = nat
  type ConnectionId = nat

  datatype Link = Manual | Synced(connection: ConnectionId, external: string)

  datatype Account = Account(id: nat, user: UserId, bank: string, number: string, link: Link)

  datatype Connection = Connection(id: ConnectionId, user: UserId)

  // One account as the connector reports it.
  datatype Report = Report(external: string, bank: string, number: string)

  datatype Table = Table(accounts: seq<Account>, next: nat)

  // ---------- Names as given ----------

  predicate IsSpace(c: char) {
    var n := c as int;
    || 0x09 <= n <= 0x0D || 0x1C <= n <= 0x20 || n == 0x85 || n == 0xA0 || n == 0x1680
    || 0x2000 <= n <= 0x200A || n == 0x2028 || n == 0x2029 || n == 0x202F || n == 0x205F || n == 0x3000
  }

  const SpaceCodes := {0x09, 0x0A, 0x0B, 0x0C, 0x0D, 0x1C, 0x1D, 0x1E, 0x1F, 0x20, 0x85, 0xA0, 0x1680,
                       0x2000, 0x2001, 0x2002, 0x2003, 0x2004, 0x2005, 0x2006, 0x2007, 0x2008, 0x2009, 0x200A,
                       0x2028, 0x2029, 0x202F, 0x205F, 0x3000}

  // The characters Python strips.
  lemma SpacesExactly(c: char)
    ensures IsSpace(c) <==> c as int in SpaceCodes
  {
  }

  predicate IsTrimmed(name: string) {
    name == "" || (!IsSpace(name[0]) && !IsSpace(name[|name| - 1]))
  }

  function Trim(name: string): (r: string)
    ensures IsTrimmed(r)
    ensures IsTrimmed(name) ==> r == name
    ensures |r| <= |name|
    decreases |name|
  {
    if name == "" then name
    else if IsSpace(name[0]) then Trim(name[1..])
    else if IsSpace(name[|name| - 1]) then Trim(name[..|name| - 1])
    else name
  }

  // Nothing but surrounding space is lost.
  ghost predicate Padded(name: string, core: string) {
    exists before, after :: IsPadding(name, before, core, after)
  }

  predicate IsPadding(name: string, before: string, core: string, after: string) {
    name == before + core + after && AllSpace(before) && AllSpace(after)
  }

  predicate AllSpace(s: string) {
    forall k :: 0 <= k < |s| ==> IsSpace(s[k])
  }

  lemma {:induction false} TrimExactly(name: string)
    ensures Padded(name, Trim(name))
    decreases |name|
  {
    if name != "" && IsSpace(name[0]) {
      TrimExactly(name[1..]);
      PaddedBefore(name, Trim(name));
    } else if name != "" && IsSpace(name[|name| - 1]) {
      TrimExactly(name[..|name| - 1]);
      PaddedAfter(name, Trim(name));
    } else {
      assert IsPadding(name, "", name, "");
    }
  }

  lemma PaddedBefore(name: string, core: string)
    requires name != "" && IsSpace(name[0]) && Padded(name[1..], core)
    ensures Padded(name, core)
  {
    var before, after :| IsPadding(name[1..], before, core, after);
    assert IsPadding(name, [name[0]] + before, core, after);
  }

  lemma PaddedAfter(name: string, core: string)
    requires name != "" && IsSpace(name[|name| - 1]) && Padded(name[..|name| - 1], core)
    ensures Padded(name, core)
  {
    var before, after :| IsPadding(name[..|name| - 1], before, core, after);
    assert IsPadding(name, before, core, after + [name[|name| - 1]]);
  }

  // ---------- Specification ----------

  predicate IsShadow(a: Account, user: UserId, bank: string) {
    a.user == user && a.link.Manual? && a.bank == bank
  }

  function WithoutShadows(accounts: seq<Account>, user: UserId, bank: string): seq<Account> {
    if accounts == [] then []
    else (if IsShadow(accounts[0], user, bank) then [] else [accounts[0]]) + WithoutShadows(accounts[1..], user, bank)
  }

  function IndexOf(accounts: seq<Account>, link: Link): (k: nat)
    ensures k <= |accounts|
    ensures k < |accounts| ==> accounts[k].link == link
    ensures forall i :: 0 <= i < k ==> accounts[i].link != link
  {
    if accounts == [] || accounts[0].link == link then 0 else 1 + IndexOf(accounts[1..], link)
  }

  function Upsert(t: Table, c: Connection, r: Report): Table {
    var link := Synced(c.id, r.external);
    var k := IndexOf(t.accounts, link);
    if k < |t.accounts|
    then t.(accounts := t.accounts[k := t.accounts[k].(user := c.user, bank := r.bank, number := r.number)])
    else Table(t.accounts + [Account(t.next, c.user, r.bank, r.number, link)], t.next + 1)
  }

  function UpsertAll(t: Table, c: Connection, reports: seq<Report>): Table {
    if reports == [] then t else Upsert(UpsertAll(t, c, reports[..|reports| - 1]), c, reports[|reports| - 1])
  }

  // The first reported bank name decides which manual accounts are superseded.
  function Cleared(t: Table, c: Connection, reports: seq<Report>): Table {
    if reports == [] then t else t.(accounts := WithoutShadows(t.accounts, c.user, reports[0].bank))
  }

  function ApplySynced(t: Table, c: Connection, reports: seq<Report>): Table {
    UpsertAll(Cleared(t, c, reports), c, reports)
  }

  predicate IsSyncedAs(a: Account, user: UserId, bank: string) {
    a.user == user && a.link.Synced? && a.bank == bank
  }

  predicate AlreadySynced(t: Table, user: UserId, bank: string) {
    exists i :: 0 <= i < |t.accounts| && IsSyncedAs(t.accounts[i], user, bank)
  }

  function Find(accounts: seq<Account>, id: nat, user: UserId): (k: nat)
    ensures k <= |accounts|
    ensures k < |accounts| ==> accounts[k].id == id && accounts[k].user == user
  {
    if accounts == [] || (accounts[0].id == id && accounts[0].user == user) then 0
    else 1 + Find(accounts[1..], id, user)
  }

  datatype Refusal = NotFound | ReadOnly | SourceOfTruth | BlankName

  datatype Request =
    | Create(user: UserId, given: string, number: string)
    | Rename(user: UserId, id: nat, given: string)
    | Delete(user: UserId, id: nat)
    | Sync(connection: Connection, reports: seq<Report>)

  function Execute(t: Table, req: Request): Result<Table, Refusal> {
    match req
    case Create(user, given, number) =>
      var bank := Trim(given);
      if bank == "" then Err(BlankName)
      else if AlreadySynced(t, user, bank) then Err(SourceOfTruth)
      else Ok(Table(t.accounts + [Account(t.next, user, bank, number, Manual)], t.next + 1))
    // The guard sees the name as given, the table its trimmed form; a blank name is refused last,
    // and an empty one skips the guard.
    case Rename(user, id, given) =>
      var k := Find(t.accounts, id, user);
      if k == |t.accounts| then Err(NotFound)
      else if t.accounts[k].link.Synced? then Err(ReadOnly)
      else if given != "" && AlreadySynced(t, user, given) then Err(SourceOfTruth)
      else if Trim(given) == "" then Err(BlankName)
      else Ok(t.(accounts := t.accounts[k := t.accounts[k].(bank := Trim(given))]))
    case Delete(user, id) =>
      var k := Find(t.accounts, id, user);
      if k == |t.accounts| then Err(NotFound)
      else if t.accounts[k].link.Synced? then Err(ReadOnly)
      else Ok(t.(accounts := t.accounts[..k] + t.accounts[k + 1..]))
    case Sync(connection, reports) => Ok(ApplySynced(t, connection, reports))
  }

  // ---------- The code paths ----------

  class AccountStore {
    var accounts: seq<Account>
    var next: nat

    constructor ()
      ensures Value() == Table([], 0)
    {
      accounts, next := [], 0;
    }

    function Value(): Table
      reads this
    {
      Table(accounts, next)
    }

    method ApplySyncedAccounts(c: Connection, reports: seq<Report>)
      modifies this
      ensures Value() == ApplySynced(old(Value()), c, reports)
    {
      if reports != [] {
        accounts := WithoutShadows(accounts, c.user, reports[0].bank);
      }
      ghost var cleared := Value();
      for i := 0 to |reports|
        invariant Value() == UpsertAll(cleared, c, reports[..i])
      {
        assert reports[..i + 1][..i] == reports[..i];
        var link := Synced(c.id, reports[i].external);
        var k := IndexOf(accounts, link);
        if k < |accounts| {
          accounts := accounts[k := accounts[k].(user := c.user, bank := reports[i].bank, number := reports[i].number)];
        } else {
          accounts := accounts + [Account(next, c.user, reports[i].bank, reports[i].number, link)];
          next := next + 1;
        }
      }
      assert reports[..|reports|] == reports;
    }

    method CreateManual(user: UserId, given: string, number: string) returns (refused: Option<Refusal>)
      modifies this
      ensures match Execute(old(Value()), Create(user, given, number))
              case Ok(t) => refused == None && Value() == t
              case Err(e) => refused == Some(e) && Value() == old(Value())
    {
      var bank := Trim(given);
      if bank == "" {
        return Some(BlankName);
      }
      if AlreadySynced(Value(), user, bank) {
        return Some(SourceOfTruth);
      }
      accounts := accounts + [Account(next, user, bank, number, Manual)];
      next := next + 1;
      refused := None;
    }

    method RenameManual(user: UserId, id: nat, given: string) returns (refused: Option<Refusal>)
      modifies this
      ensures match Execute(old(Value()), Rename(user, id, given))
              case Ok(t) => refused == None && Value() == t
              case Err(e) => refused == Some(e) && Value() == old(Value())
    {
      var k := Find(accounts, id, user);
      if k == |accounts| {
        return Some(NotFound);
      }
      if accounts[k].link.Synced? {
        return Some(ReadOnly);
      }
      if given != "" {
        if AlreadySynced(Value(), user, given) {
          return Some(SourceOfTruth);
        }
      }
      var bank := Trim(given);
      if bank == "" {
        return Some(BlankName);
      }
      accounts := accounts[k := accounts[k].(bank := bank)];
      refused := None;
    }

    method DeleteManual(user: UserId, id: nat) returns (refused: Option<Refusal>)
      modifies this
      ensures match Execute(old(Value()), Delete(user, id))
              case Ok(t) => refused == None && Value() == t
              case Err(e) => refused == Some(e) && Value() == old(Value())
    {
      var k := Find(accounts, id, user);
      if k == |accounts| {
        return Some(NotFound);
      }
      if accounts[k].link.Synced? {
        return Some(ReadOnly);
      }
      accounts := accounts[..k] + accounts[k + 1..];
      refused := None;
    }
  }

  // ---------- What each request answers ----------

  // The user has an account with this id, manual or not.
  predicate HasAccount(t: Table, user: UserId, id: nat, manual: bool) {
    exists i :: 0 <= i < |t.accounts| && t.accounts[i].id == id && t.accounts[i].user == user
             && t.accounts[i].link.Manual? == manual
  }

  predicate DistinctIds(t: Table) {
    forall i, j :: 0 <= i < j < |t.accounts| ==> t.accounts[i].id != t.accounts[j].id
  }

  lemma {:induction false} FindExactly(accounts: seq<Account>, id: nat, user: UserId)
    ensures Find(accounts, id, user) == |accounts|
       <==> forall i :: 0 <= i < |accounts| ==> !(accounts[i].id == id && accounts[i].user == user)
    ensures forall i :: 0 <= i < Find(accounts, id, user) ==> !(accounts[i].id == id && accounts[i].user == user)
  {
    if accounts != [] && !(accounts[0].id == id && accounts[0].user == user) {
      FindExactly(accounts[1..], id, user);
      assert forall i :: 0 < i < |accounts| ==> accounts[i] == accounts[1..][i - 1];
    }
  }

  // The user has a synced account of this name.
  predicate Connected(t: Table, user: UserId, bank: string) {
    exists i :: 0 <= i < |t.accounts| && t.accounts[i].user == user && t.accounts[i].link.Synced?
      && t.accounts[i].bank == bank
  }

  lemma CreateExactly(t: Table, user: UserId, given: string, number: string)
    ensures var r := Execute(t, Create(user, given, number));
            && (r == Err(BlankName) <==> Trim(given) == "")
            && (r == Err(SourceOfTruth) <==> Trim(given) != "" && Connected(t, user, Trim(given)))
            && (r.Ok? <==> Trim(given) != "" && !Connected(t, user, Trim(given)))
            && (r.Ok? ==> r.value.accounts == t.accounts + [Account(t.next, user, Trim(given), number, Manual)])
  {
    ConnectedExactly(t, user, Trim(given));
  }

  lemma ConnectedExactly(t: Table, user: UserId, bank: string)
    ensures AlreadySynced(t, user, bank) <==> Connected(t, user, bank)
  {
    if AlreadySynced(t, user, bank) {
      var i :| 0 <= i < |t.accounts| && IsSyncedAs(t.accounts[i], user, bank);
    }
    if Connected(t, user, bank) {
      var i :| 0 <= i < |t.accounts| && t.accounts[i].user == user && t.accounts[i].link.Synced?
        && t.accounts[i].bank == bank;
      assert IsSyncedAs(t.accounts[i], user, bank);
    }
  }

  // An account of another user, or none, is not found; a synced one is read-only; only a manual
  // account of the user's own is renamed or deleted, and no other row changes.
  lemma RenameExactly(t: Table, user: UserId, id: nat, given: string)
    requires DistinctIds(t)
    ensures var r := Execute(t, Rename(user, id, given));
            var manual := HasAccount(t, user, id, true);
            var clash := given != "" && Connected(t, user, given);
            && (r == Err(NotFound) <==> !manual && !HasAccount(t, user, id, false))
            && (r == Err(ReadOnly) <==> HasAccount(t, user, id, false))
            && (r == Err(SourceOfTruth) <==> manual && clash)
            && (r == Err(BlankName) <==> manual && !clash && Trim(given) == "")
            && (r.Ok? <==> manual && !clash && Trim(given) != "")
            && (r.Ok? ==> |r.value.accounts| == |t.accounts| && r.value.next == t.next
                          && forall i :: 0 <= i < |t.accounts| ==>
                               r.value.accounts[i]
                               == if t.accounts[i].id == id then t.accounts[i].(bank := Trim(given)) else t.accounts[i])
  {
    FindExactly(t.accounts, id, user);
    ConnectedExactly(t, user, given);
  }

  lemma DeleteExactly(t: Table, user: UserId, id: nat)
    requires DistinctIds(t)
    ensures var r := Execute(t, Delete(user, id));
            && (r == Err(NotFound) <==> !HasAccount(t, user, id, true) && !HasAccount(t, user, id, false))
            && (r == Err(ReadOnly) <==> HasAccount(t, user, id, false))
            && (r.Ok? <==> HasAccount(t, user, id, true))
            && (r.Ok? ==> |r.value.accounts| == |t.accounts| - 1
                          && forall a :: a in r.value.accounts <==> a in t.accounts && a.id != id)
  {
    FindExactly(t.accounts, id, user);
    var k := Find(t.accounts, id, user);
    if Execute(t, Delete(user, id)).Ok? {
      var after := t.accounts[..k] + t.accounts[k + 1..];
      forall a | a in t.accounts && a.id != id
        ensures a in after
      {
        var i :| 0 <= i < |t.accounts| && t.accounts[i] == a;
        assert after[if i < k then i else i - 1] == a;
      }
    }
  }

  // A sync leaves every account that it does not report, but for the manual ones under the first
  // reported name.
  lemma {:induction false} UnreportedStay(t: Table, c: Connection, reports: seq<Report>, a: Account)
    requires a in t.accounts
    requires forall j :: 0 <= j < |reports| ==> a.link != Synced(c.id, reports[j].external)
    ensures a in UpsertAll(t, c, reports).accounts
  {
    if reports != [] {
      var before, r := reports[..|reports| - 1], reports[|reports| - 1];
      var mid := UpsertAll(t, c, before);
      UnreportedStay(t, c, before, a);
      var i :| 0 <= i < |mid.accounts| && mid.accounts[i] == a;
      assert Upsert(mid, c, r).accounts[i] == a;
    }
  }

  lemma SyncLeavesOthers(t: Table, c: Connection, reports: seq<Report>, a: Account)
    requires a in t.accounts && forall j :: 0 <= j < |reports| ==> a.link != Synced(c.id, reports[j].external)
    ensures a in ApplySynced(t, c, reports).accounts
       <==> !(reports != [] && a.user == c.user && a.link.Manual? && a.bank == reports[0].bank)
  {
    if reports != [] {
      ClearedRows(t.accounts, c.user, reports[0].bank);
    }
    if a in Cleared(t, c, reports).accounts {
      UnreportedStay(Cleared(t, c, reports), c, reports, a);
    } else {
      ManualRows(Cleared(t, c, reports), c, reports);
    }
  }

  // ---------- Sync as the source of truth ----------

  // No manual account of a user carries the name of a bank the user has synced accounts of.
  predicate NoShadow(t: Table) {
    forall i, j :: 0 <= i < |t.accounts| && 0 <= j < |t.accounts| ==> Apart(t.accounts[i], t.accounts[j])
  }

  predicate Apart(a: Account, b: Account) {
    a.link.Manual? && b.link.Synced? && a.user == b.user ==> a.bank != b.bank
  }

  // The last report of its external account, which is the one that stays.
  predicate Lasting(reports: seq<Report>, j: nat) {
    j < |reports| && forall k :: j < k < |reports| ==> reports[k].external != reports[j].external
  }

  // No manual account of the user carries a name that stays other than the first one reported.
  predicate ReportsClear(t: Table, c: Connection, reports: seq<Report>) {
    forall i, j :: 0 <= i < |t.accounts| && 0 <= j < |reports| && Lasting(reports, j)
                   && reports[j].bank != reports[0].bank ==>
      !IsShadow(t.accounts[i], c.user, reports[j].bank)
  }

  lemma {:induction false} ClearedRows(accounts: seq<Account>, user: UserId, bank: string)
    ensures forall a :: a in WithoutShadows(accounts, user, bank) <==> a in accounts && !IsShadow(a, user, bank)
  {
    if accounts != [] {
      ClearedRows(accounts[1..], user, bank);
      assert accounts == [accounts[0]] + accounts[1..];
    }
  }

  predicate StoredAs(a: Account, c: Connection, r: Report) {
    a.link == Synced(c.id, r.external) && a.user == c.user && a.bank == r.bank && a.number == r.number
  }

  predicate Stored(t: Table, c: Connection, r: Report) {
    exists i :: 0 <= i < |t.accounts| && StoredAs(t.accounts[i], c, r)
  }

  // The account at k is the one a lasting report left there.
  predicate FromReport(accounts: seq<Account>, k: nat, c: Connection, reports: seq<Report>)
    requires k < |accounts|
  {
    && k == IndexOf(accounts, accounts[k].link)
    && exists j :: 0 <= j < |reports| && Lasting(reports, j) && StoredAs(accounts[k], c, reports[j])
  }

  // Every synced account is an old one or what a lasting report says.
  predicate Explained(t: Table, accounts: seq<Account>, k: nat, c: Connection, reports: seq<Report>)
    requires k < |accounts|
  {
    accounts[k].link.Manual? || accounts[k] in t.accounts || FromReport(accounts, k, c, reports)
  }

  predicate AllExplained(t: Table, accounts: seq<Account>, c: Connection, reports: seq<Report>) {
    forall k :: 0 <= k < |accounts| ==> Explained(t, accounts, k, c, reports)
  }

  lemma {:induction false} SyncedRows(t: Table, c: Connection, reports: seq<Report>)
    ensures AllExplained(t, UpsertAll(t, c, reports).accounts, c, reports)
  {
    if reports != [] {
      var before, r := reports[..|reports| - 1], reports[|reports| - 1];
      var mid, after := UpsertAll(t, c, before), UpsertAll(t, c, reports).accounts;
      SyncedRows(t, c, before);
      assert before + [r] == reports;
      forall k | 0 <= k < |after|
        ensures Explained(t, after, k, c, reports)
      {
        if k == IndexOf(mid.accounts, Synced(c.id, r.external)) {
          LastStays(mid, c, before, r);
        } else {
          assert Explained(t, mid.accounts, k, c, before) && mid.accounts[k] == after[k];
          if FromReport(mid.accounts, k, c, before) {
            FromReportStays(mid, c, before, r, k);
          }
        }
      }
    }
  }

  // Upserting touches no manual account.
  lemma {:induction false} ManualRows(t: Table, c: Connection, reports: seq<Report>)
    ensures forall a :: a in UpsertAll(t, c, reports).accounts && a.link.Manual? <==> a in t.accounts && a.link.Manual?
  {
    if reports != [] {
      var before := reports[..|reports| - 1];
      ManualRows(t, c, before);
      UpsertKeepsManual(UpsertAll(t, c, before), c, reports[|reports| - 1]);
    }
  }

  lemma LastStays(mid: Table, c: Connection, before: seq<Report>, r: Report)
    ensures FromReport(Upsert(mid, c, r).accounts, IndexOf(mid.accounts, Synced(c.id, r.external)), c, before + [r])
  {
    var reports, j := before + [r], |before|;
    assert Lasting(reports, j) && reports[j] == r;
  }

  // A later report of another account leaves what an earlier one stored.
  lemma FromReportStays(mid: Table, c: Connection, before: seq<Report>, r: Report, k: nat)
    requires k < |mid.accounts| && k != IndexOf(mid.accounts, Synced(c.id, r.external))
    requires FromReport(mid.accounts, k, c, before)
    ensures FromReport(Upsert(mid, c, r).accounts, k, c, before + [r])
  {
    var j :| 0 <= j < |before| && Lasting(before, j) && StoredAs(mid.accounts[k], c, before[j]);
    assert before[j].external != r.external;
    assert Lasting(before + [r], j) && (before + [r])[j] == before[j];
  }

  lemma UpsertKeepsManual(t: Table, c: Connection, r: Report)
    ensures forall a :: a in Upsert(t, c, r).accounts && a.link.Manual? <==> a in t.accounts && a.link.Manual?
  {
    var after := Upsert(t, c, r).accounts;
    forall a | a in t.accounts && a.link.Manual?
      ensures a in after
    {
      var i :| 0 <= i < |t.accounts| && t.accounts[i] == a;
      assert after[i] == a;
    }
  }

  // The last report of each external account is what its row says afterwards.
  lemma {:induction false} ReportedIsStored(t: Table, c: Connection, reports: seq<Report>, j: nat)
    requires Lasting(reports, j)
    ensures Stored(UpsertAll(t, c, reports), c, reports[j])
  {
    var before, last := reports[..|reports| - 1], reports[|reports| - 1];
    var mid, after := UpsertAll(t, c, before), UpsertAll(t, c, reports);
    if j == |reports| - 1 {
      assert StoredAs(after.accounts[IndexOf(mid.accounts, Synced(c.id, last.external))], c, last);
    } else {
      ReportedIsStored(t, c, before, j);
      var i :| 0 <= i < |mid.accounts| && StoredAs(mid.accounts[i], c, reports[j]);
      assert StoredAs(after.accounts[i], c, reports[j]);
    }
  }

  // A sync keeps banks exclusive exactly when its reports are clear: the names that stay, other
  // than the first, must not be those of manual accounts.
  lemma SyncKeepsNoShadowExactly(t: Table, c: Connection, reports: seq<Report>)
    requires NoShadow(t)
    ensures NoShadow(ApplySynced(t, c, reports)) <==> ReportsClear(t, c, reports)
  {
    if ReportsClear(t, c, reports) {
      ClearReportsKeepNoShadow(t, c, reports);
    } else {
      var i, j :| 0 <= i < |t.accounts| && 0 <= j < |reports| && Lasting(reports, j)
               && reports[j].bank != reports[0].bank && IsShadow(t.accounts[i], c.user, reports[j].bank);
      UnclearReportShadows(t, c, reports, i, j);
    }
  }

  lemma ClearReportsKeepNoShadow(t: Table, c: Connection, reports: seq<Report>)
    requires NoShadow(t) && ReportsClear(t, c, reports)
    ensures NoShadow(ApplySynced(t, c, reports))
  {
    var cleared, after := Cleared(t, c, reports), ApplySynced(t, c, reports);
    if reports != [] {
      ClearedRows(t.accounts, c.user, reports[0].bank);
    }
    ManualRows(cleared, c, reports);
    SyncedRows(cleared, c, reports);
    forall i, j | 0 <= i < |after.accounts| && 0 <= j < |after.accounts|
      ensures Apart(after.accounts[i], after.accounts[j])
    {
      var a, b := after.accounts[i], after.accounts[j];
      if a.link.Manual? && b.link.Synced? && a.user == b.user {
        assert a in after.accounts && a in cleared.accounts && a in t.accounts;
        var x :| 0 <= x < |t.accounts| && t.accounts[x] == a;
        assert Explained(cleared, after.accounts, j, c, reports);
        if b in cleared.accounts {
          assert b in t.accounts;
          var y :| 0 <= y < |t.accounts| && t.accounts[y] == b;
          assert Apart(t.accounts[x], t.accounts[y]);
        } else {
          var y :| 0 <= y < |reports| && Lasting(reports, y) && StoredAs(b, c, reports[y]);
          assert reports[y].bank != reports[0].bank ==> !IsShadow(t.accounts[x], c.user, reports[y].bank);
        }
      }
    }
  }

  lemma UnclearReportShadows(t: Table, c: Connection, reports: seq<Report>, i: nat, j: nat)
    requires i < |t.accounts| && Lasting(reports, j) && reports[j].bank != reports[0].bank
    requires IsShadow(t.accounts[i], c.user, reports[j].bank)
    ensures !NoShadow(ApplySynced(t, c, reports))
  {
    var a, cleared, after := t.accounts[i], Cleared(t, c, reports), ApplySynced(t, c, reports);
    ClearedRows(t.accounts, c.user, reports[0].bank);
    ManualRows(cleared, c, reports);
    assert a in cleared.accounts && a in after.accounts;
    ReportedIsStored(cleared, c, reports, j);
    var x :| 0 <= x < |after.accounts| && after.accounts[x] == a;
    var y :| 0 <= y < |after.accounts| && StoredAs(after.accounts[y], c, reports[j]);
    assert !Apart(after.accounts[x], after.accounts[y]);
  }

  // ---------- Runs ----------

  function RunAll(reqs: seq<Request>): Table {
    if reqs == [] then Table([], 0)
    else
      var before := RunAll(reqs[..|reqs| - 1]);
      match Execute(before, reqs[|reqs| - 1])
      case Ok(t) => t
      case Err(_) => before
  }

  // A rename keeps banks exclusive exactly when the name it stores, which is not the one it was
  // guarded with, is not that of a connected bank.
  lemma RenameKeepsNoShadowExactly(t: Table, user: UserId, id: nat, given: string)
    requires NoShadow(t) && Execute(t, Rename(user, id, given)).Ok?
    ensures NoShadow(Execute(t, Rename(user, id, given)).value) <==> !AlreadySynced(t, user, Trim(given))
  {
    var k, after := Find(t.accounts, id, user), Execute(t, Rename(user, id, given)).value.accounts;
    if AlreadySynced(t, user, Trim(given)) {
      var j :| 0 <= j < |t.accounts| && IsSyncedAs(t.accounts[j], user, Trim(given));
      assert !Apart(after[k], after[j]);
    } else {
      forall i, j | 0 <= i < |after| && 0 <= j < |after|
        ensures Apart(after[i], after[j])
      {
        assert Apart(t.accounts[i], t.accounts[j]);
      }
    }
  }

  // The other manual requests always do: creation is guarded with the name it stores.
  lemma ManualKeepsNoShadow(t: Table, req: Request)
    requires NoShadow(t) && (req.Create? || req.Delete?) && Execute(t, req).Ok?
    ensures NoShadow(Execute(t, req).value)
  {
    var after := Execute(t, req).value.accounts;
    forall i, j | 0 <= i < |after| && 0 <= j < |after|
      ensures Apart(after[i], after[j])
    {
      if req.Create? {
        if j < |t.accounts| && i < |t.accounts| {
          assert Apart(t.accounts[i], t.accounts[j]);
        }
      } else {
        var k := Find(t.accounts, req.id, req.user);
        assert Apart(t.accounts[if i < k then i else i + 1], t.accounts[if j < k then j else j + 1]);
      }
    }
  }

  // What can be checked of a request before it is carried out.
  predicate Careful(t: Table, req: Request) {
    match req
    case Create(_, _, _) => true
    case Rename(user, id, given) => Execute(t, req).Ok? ==> !AlreadySynced(t, user, Trim(given))
    case Delete(_, _) => true
    case Sync(connection, reports) => ReportsClear(t, connection, reports)
  }

  predicate AllCareful(reqs: seq<Request>) {
    reqs == [] || (AllCareful(reqs[..|reqs| - 1]) && Careful(RunAll(reqs[..|reqs| - 1]), reqs[|reqs| - 1]))
  }

  predicate AlwaysNoShadow(reqs: seq<Request>) {
    NoShadow(RunAll(reqs)) && (reqs == [] || AlwaysNoShadow(reqs[..|reqs| - 1]))
  }

  // Throughout a run of manual creations, renamings, deletions and syncs, a connected bank has no
  // manual account beside it if and only if every sync is clear and no rename stores the name of
  // a connected bank.
  lemma {:induction false} RunsKeepNoShadowExactly(reqs: seq<Request>)
    ensures AlwaysNoShadow(reqs) <==> AllCareful(reqs)
  {
    if reqs != [] {
      var before, req := reqs[..|reqs| - 1], reqs[|reqs| - 1];
      RunsKeepNoShadowExactly(before);
      var t := RunAll(before);
      if AlwaysNoShadow(before) {
        if req.Sync? {
          SyncKeepsNoShadowExactly(t, req.connection, req.reports);
        } else if req.Rename? && Execute(t, req).Ok? {
          RenameKeepsNoShadowExactly(t, req.user, req.id, req.given);
        } else if Execute(t, req).Ok? {
          ManualKeepsNoShadow(t, req);
        }
      }
    }
  }

  // One connector call reports the accounts of one bank.
  predicate OneBankEach(reqs: seq<Request>) {
    forall k :: 0 <= k < |reqs| && reqs[k].Sync? ==>
      forall j :: 0 <= j < |reqs[k].reports| ==> reqs[k].reports[j].bank == reqs[k].reports[0].bank
  }

  predicate TrimmedNames(reqs: seq<Request>) {
    forall k :: 0 <= k < |reqs| && reqs[k].Rename? ==> IsTrimmed(reqs[k].given)
  }

  // In particular when each sync reports one bank and renames give their names trimmed.
  lemma {:induction false} TidyRunsAreCareful(reqs: seq<Request>)
    requires OneBankEach(reqs) && TrimmedNames(reqs)
    ensures AllCareful(reqs)
  {
    if reqs != [] {
      var before, req := reqs[..|reqs| - 1], reqs[|reqs| - 1];
      assert forall k :: 0 <= k < |before| ==> before[k] == reqs[k];
      TidyRunsAreCareful(before);
      assert req == reqs[|reqs| - 1];
    }
  }

  // A padded name passes the guard, whatever else the table holds, and is stored beside the
  // connected bank.
  lemma PaddedRenameShadows(t: Table, user: UserId, id: nat, bank: string)
    requires NoShadow(t) && bank != "" && IsTrimmed(bank)
    requires AlreadySynced(t, user, bank) && !AlreadySynced(t, user, " " + bank)
    requires var k := Find(t.accounts, id, user); k < |t.accounts| && t.accounts[k].link.Manual?
    ensures Execute(t, Rename(user, id, " " + bank)).Ok?
    ensures !NoShadow(Execute(t, Rename(user, id, " " + bank)).value)
  {
    assert (" " + bank)[1..] == bank;
    RenameKeepsNoShadowExactly(t, user, id, " " + bank);
  }

  // Such a run exists, with a sync of one bank.
  lemma PaddedRenameIsReached() returns (reqs: seq<Request>)
    ensures OneBankEach(reqs) && !NoShadow(RunAll(reqs))
  {
    var t := Table([Account(0, 0, "cib", "1", Synced(0, "x")), Account(1, 0, "other", "2", Manual)], 2);
    var first := [Sync(Connection(0, 0), [Report("x", "cib", "1")])];
    var second, rename := first + [Create(0, "other", "2")], Rename(0, 1, " " + "cib");
    OneSync(first);
    OtherIsCreated(RunAll(first), t);
    RunOneMore(first, Create(0, "other", "2"), t);
    OtherIsFound(t);
    PaddedRenameShadows(t, 0, 1, "cib");
    RunOneMore(second, rename, Execute(t, rename).value);
    reqs := second + [rename];
  }

  lemma RunOneMore(reqs: seq<Request>, req: Request, t: Table)
    requires Execute(RunAll(reqs), req) == Ok(t)
    ensures RunAll(reqs + [req]) == t
  {
    assert (reqs + [req])[..|reqs + [req]| - 1] == reqs;
  }

  lemma OtherIsCreated(before: Table, t: Table)
    requires before == Table([Account(0, 0, "cib", "1", Synced(0, "x"))], 1)
    requires t == Table([Account(0, 0, "cib", "1", Synced(0, "x")), Account(1, 0, "other", "2", Manual)], 2)
    ensures Execute(before, Create(0, "other", "2")) == Ok(t)
  {
    assert IsTrimmed("other");
    assert |"cib"| != |"other"|;
    assert before.accounts + [Account(1, 0, "other", "2", Manual)] == t.accounts;
  }

  lemma OtherIsFound(t: Table)
    requires t == Table([Account(0, 0, "cib", "1", Synced(0, "x")), Account(1, 0, "other", "2", Manual)], 2)
    ensures Find(t.accounts, 1, 0) == 1 && NoShadow(t)
    ensures AlreadySynced(t, 0, "cib") && !AlreadySynced(t, 0, " " + "cib")
  {
    assert t.accounts[1..][0].id == 1;
    assert t.accounts[0].bank == "cib";
    assert |" " + "cib"| != |"cib"|;
  }

  lemma OneSync(reqs: seq<Request>)
    requires reqs == [Sync(Connection(0, 0), [Report("x", "cib", "1")])]
    ensures RunAll(reqs) == Table([Account(0, 0, "cib", "1", Synced(0, "x"))], 1)
  {
    assert reqs[..0] == [];
    assert reqs[0].reports[..0] == [];
    assert [] + [Account(0, 0, "cib", "1", Synced(0, "x"))] == [Account(0, 0, "cib", "1", Synced(0, "x"))];
  }
}
