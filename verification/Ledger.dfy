/**
 The transaction ledger: duplicate-suppressing inserts from bank sync and from statement
 approval, and the balance an account shows. Amounts and balances are in cents, dates are
 day numbers, and every inserted row gets the next creation stamp.
 */
module Ledger {
  import opened Wrappers
  import S = StatementPipeline

  type UserId = nat
  type AccountId = nat

  // The six fields two rows of the ledger may not share.
  datatype Key = Key(user: UserId, account: AccountId, date: int, amount: int,
                     merchant: Option<string>, kind: Option<string>)

  datatype Row = Row(id: nat, key: Key, balance: Option<int>, createdAt: int, source: string)

  // What a sync batch or an approval submits for one row.
  datatype Entry = Entry(date: int, amount: int, merchant: Option<string>, kind: Option<string>, balance: Option<int>)

  function KeyOf(user: UserId, account: AccountId, e: Entry): Key {
    Key(user, account, e.date, e.amount, e.merchant, e.kind)
  }

  // A credit adds to the account; every other kind, and none at all, takes from it.
  function Signed(k: Key): int {
    if k.kind == Some("credit") then k.amount else -k.amount
  }

  // ---------- The balance ----------

  predicate Before(a: Row, b: Row) {
    a.key.date < b.key.date || (a.key.date == b.key.date && a.createdAt < b.createdAt)
  }

  // The newest row that states a balance.
  function Anchor(rows: seq<Row>): (anchor: Option<Row>)
    ensures anchor.Some? ==> anchor.value.balance.Some?
  {
    if rows == [] then None
    else
      var rest := Anchor(rows[1..]);
      if rows[0].balance.None? then rest
      else if rest.None? || Before(rest.value, rows[0]) then Some(rows[0]) else rest
  }

  function CreditsAfter(rows: seq<Row>, anchor: Option<Row>): int {
    if rows == [] then 0
    else
      var credit := IsMovement(rows[0], anchor) && rows[0].key.kind == Some("credit");
      CreditsAfter(rows[1..], anchor) + (if credit then rows[0].key.amount else 0)
  }

  function OutflowsAfter(rows: seq<Row>, anchor: Option<Row>): int {
    if rows == [] then 0
    else
      var outflow := IsMovement(rows[0], anchor) && rows[0].key.kind != Some("credit");
      OutflowsAfter(rows[1..], anchor) + (if outflow then rows[0].key.amount else 0)
  }

  predicate IsMovement(r: Row, anchor: Option<Row>) {
    anchor.None? || Before(anchor.value, r)
  }

  function CurrentBalance(rows: seq<Row>): int {
    var anchor := Anchor(rows);
    var stated := if anchor.None? then 0 else anchor.value.balance.value;
    stated + CreditsAfter(rows, anchor) - OutflowsAfter(rows, anchor)
  }

  // The rows of one account, in ledger order.
  function Of(rows: seq<Row>, account: AccountId): seq<Row> {
    if rows == [] then []
    else (if rows[0].key.account == account then [rows[0]] else []) + Of(rows[1..], account)
  }

  // ---------- The simple replay ----------

  function Replay(rows: seq<Row>): int {
    if rows == [] then 0
    else
      var last := rows[|rows| - 1];
      if last.balance.Some? then last.balance.value else Replay(rows[..|rows| - 1]) + Signed(last.key)
  }

  function Insert(r: Row, sorted: seq<Row>): seq<Row> {
    if sorted == [] || Before(r, sorted[0]) then [r] + sorted else [sorted[0]] + Insert(r, sorted[1..])
  }

  function Sorted(rows: seq<Row>): seq<Row> {
    if rows == [] then [] else Insert(rows[0], Sorted(rows[1..]))
  }

  predicate DistinctStamps(rows: seq<Row>) {
    forall i, j :: 0 <= i < j < |rows| ==> Before(rows[i], rows[j]) || Before(rows[j], rows[i])
  }

  predicate Ascending(rows: seq<Row>) {
    forall i, j :: 0 <= i < j < |rows| ==> Before(rows[i], rows[j])
  }

  // Sum of the movements after a row, in one fold.
  function SumAfter(rows: seq<Row>, anchor: Option<Row>): int {
    if rows == [] then 0
    else SumAfter(rows[1..], anchor) + (if IsMovement(rows[0], anchor) then Signed(rows[0].key) else 0)
  }

  lemma {:induction false} SumAfterSplits(rows: seq<Row>, anchor: Option<Row>)
    ensures CreditsAfter(rows, anchor) - OutflowsAfter(rows, anchor) == SumAfter(rows, anchor)
  {
    if rows != [] {
      SumAfterSplits(rows[1..], anchor);
    }
  }

  lemma {:induction false} SumAfterInsert(r: Row, sorted: seq<Row>, anchor: Option<Row>)
    ensures SumAfter(Insert(r, sorted), anchor) == SumAfter([r] + sorted, anchor)
  {
    assert ([r] + sorted)[1..] == sorted;
    if sorted != [] && !Before(r, sorted[0]) {
      SumAfterInsert(r, sorted[1..], anchor);
      assert ([r] + sorted[1..])[1..] == sorted[1..];
      assert Insert(r, sorted)[1..] == Insert(r, sorted[1..]);
    }
  }

  lemma {:induction false} AnchorIsStated(rows: seq<Row>)
    ensures Anchor(rows).Some? ==> Anchor(rows).value in rows && Anchor(rows).value.balance.Some?
    ensures Anchor(rows).None? ==> forall i :: 0 <= i < |rows| ==> rows[i].balance.None?
    ensures Anchor(rows).Some? ==>
              forall i :: 0 <= i < |rows| && rows[i].balance.Some? ==> !Before(Anchor(rows).value, rows[i])
  {
    if rows != [] {
      AnchorIsStated(rows[1..]);
      assert forall i :: 0 < i < |rows| ==> rows[i] == rows[1..][i - 1];
    }
  }

  lemma {:induction false} InsertKeepsRows(r: Row, sorted: seq<Row>)
    ensures |Insert(r, sorted)| == |sorted| + 1
    ensures forall x :: x in Insert(r, sorted) <==> x == r || x in sorted
  {
    if sorted != [] && !Before(r, sorted[0]) {
      InsertKeepsRows(r, sorted[1..]);
      assert sorted == [sorted[0]] + sorted[1..];
    }
  }

  lemma {:induction false} InsertAscends(r: Row, sorted: seq<Row>)
    requires Ascending(sorted)
    requires forall x :: x in sorted ==> Before(r, x) || Before(x, r)
    ensures Ascending(Insert(r, sorted))
  {
    if sorted != [] && !Before(r, sorted[0]) {
      InsertAscends(r, sorted[1..]);
      InsertKeepsRows(r, sorted[1..]);
      var tail := Insert(r, sorted[1..]);
      forall j | 0 <= j < |tail|
        ensures Before(sorted[0], tail[j])
      {
        assert tail[j] in tail;
        assert sorted[0] in sorted;
      }
    }
  }

  lemma {:induction false} SortedAscends(rows: seq<Row>)
    requires DistinctStamps(rows)
    ensures Ascending(Sorted(rows))
    ensures |Sorted(rows)| == |rows|
    ensures forall x :: x in Sorted(rows) <==> x in rows
  {
    if rows != [] {
      SortedAscends(rows[1..]);
      InsertKeepsRows(rows[0], Sorted(rows[1..]));
      forall x | x in Sorted(rows[1..])
        ensures Before(rows[0], x) || Before(x, rows[0])
      {
        var i :| 0 <= i < |rows[1..]| && rows[1..][i] == x;
        assert rows[i + 1] == x;
      }
      InsertAscends(rows[0], Sorted(rows[1..]));
      assert rows == [rows[0]] + rows[1..];
    }
  }

  lemma {:induction false} SumAfterSorted(rows: seq<Row>, anchor: Option<Row>)
    ensures SumAfter(Sorted(rows), anchor) == SumAfter(rows, anchor)
  {
    if rows != [] {
      SumAfterSorted(rows[1..], anchor);
      SumAfterInsert(rows[0], Sorted(rows[1..]), anchor);
      assert ([rows[0]] + Sorted(rows[1..]))[1..] == Sorted(rows[1..]);
    }
  }

  // Two lists of the same rows with distinct stamps have the same anchor.
  lemma AnchorBySet(xs: seq<Row>, ys: seq<Row>)
    requires forall x :: x in xs <==> x in ys
    requires DistinctStamps(ys)
    ensures Anchor(xs) == Anchor(ys)
  {
    AnchorIsStated(xs);
    AnchorIsStated(ys);
    var a, b := Anchor(xs), Anchor(ys);
    if a.Some? {
      var i :| 0 <= i < |ys| && ys[i] == a.value;
      if b.Some? {
        var j :| 0 <= j < |ys| && ys[j] == b.value;
        var k :| 0 <= k < |xs| && xs[k] == b.value;
        assert !Before(a.value, xs[k]) && !Before(b.value, ys[i]);
      }
    }
  }

  lemma {:induction false} SumAfterAppend(rows: seq<Row>, r: Row, anchor: Option<Row>)
    ensures SumAfter(rows + [r], anchor)
         == SumAfter(rows, anchor) + (if IsMovement(r, anchor) then Signed(r.key) else 0)
  {
    if rows == [] {
      assert rows + [r] == [r];
    } else {
      SumAfterAppend(rows[1..], r, anchor);
      assert (rows + [r])[1..] == rows[1..] + [r];
    }
  }

  lemma {:induction false} NothingAfter(rows: seq<Row>, anchor: Row)
    requires forall i :: 0 <= i < |rows| ==> !Before(anchor, rows[i])
    ensures SumAfter(rows, Some(anchor)) == 0
  {
    if rows != [] {
      NothingAfter(rows[1..], anchor);
    }
  }

  lemma {:induction false} AnchorAppend(rows: seq<Row>, r: Row)
    requires forall i :: 0 <= i < |rows| ==> Before(rows[i], r)
    ensures Anchor(rows + [r]) == if r.balance.Some? then Some(r) else Anchor(rows)
  {
    if rows == [] {
      assert rows + [r] == [r];
    } else {
      AnchorAppend(rows[1..], r);
      assert (rows + [r])[1..] == rows[1..] + [r];
    }
  }

  function AnchoredSum(rows: seq<Row>): int {
    var anchor := Anchor(rows);
    (if anchor.None? then 0 else anchor.value.balance.value) + SumAfter(rows, anchor)
  }

  lemma {:induction false} ReplayIsAnchored(rows: seq<Row>)
    requires Ascending(rows)
    ensures AnchoredSum(rows) == Replay(rows)
  {
    if rows != [] {
      var before, last := rows[..|rows| - 1], rows[|rows| - 1];
      assert rows == before + [last];
      ReplayIsAnchored(before);
      AnchorAppend(before, last);
      AnchorIsStated(before);
      SumAfterAppend(before, last, Anchor(rows));
      if last.balance.Some? {
        NothingAfter(before, last);
      } else if Anchor(before).Some? {
        var i :| 0 <= i < |before| && before[i] == Anchor(before).value;
        assert Before(rows[i], last);
      }
    }
  }

  // The balance is that of replaying the rows by date and creation: take a stated balance,
  // otherwise add the signed amount, starting from nothing.
  lemma BalanceIsReplay(rows: seq<Row>)
    requires DistinctStamps(rows)
    ensures CurrentBalance(rows) == Replay(Sorted(rows))
  {
    SortedAscends(rows);
    AnchorBySet(Sorted(rows), rows);
    SumAfterSorted(rows, Anchor(rows));
    SumAfterSplits(rows, Anchor(rows));
    ReplayIsAnchored(Sorted(rows));
  }

  // A row no newer than the newest stated balance never changes the balance, wherever it is
  // inserted; a stated balance of its own counts for nothing.
  lemma OldRowIsNeutral(rows: seq<Row>, r: Row, k: nat)
    requires Anchor(rows).Some? && Before(r, Anchor(rows).value) && k <= |rows|
    ensures CurrentBalance(Inserted(rows, r, k)) == CurrentBalance(rows)
  {
    SumAfterSplits(Inserted(rows, r, k), Anchor(rows));
    SumAfterSplits(rows, Anchor(rows));
    SumAfterInserted(rows, r, k, Anchor(rows));
    OldRowKeepsAnchor(rows, r, k);
  }

  function Inserted(rows: seq<Row>, r: Row, k: nat): seq<Row>
    requires k <= |rows|
  {
    rows[..k] + [r] + rows[k..]
  }

  lemma InsertedTail(rows: seq<Row>, r: Row, k: nat)
    requires k <= |rows|
    ensures k == 0 ==> Inserted(rows, r, k) == [r] + rows
    ensures k > 0 ==> Inserted(rows, r, k)[0] == rows[0] && Inserted(rows, r, k)[1..] == Inserted(rows[1..], r, k - 1)
  {
  }

  lemma {:induction false} SumAfterInserted(rows: seq<Row>, r: Row, k: nat, anchor: Option<Row>)
    requires k <= |rows|
    ensures SumAfter(Inserted(rows, r, k), anchor)
         == SumAfter(rows, anchor) + (if IsMovement(r, anchor) then Signed(r.key) else 0)
  {
    InsertedTail(rows, r, k);
    if k == 0 {
      assert ([r] + rows)[1..] == rows;
    } else {
      SumAfterInserted(rows[1..], r, k - 1, anchor);
    }
  }

  lemma {:induction false} OldRowKeepsAnchor(rows: seq<Row>, r: Row, k: nat)
    requires Anchor(rows).Some? && Before(r, Anchor(rows).value) && k <= |rows|
    ensures Anchor(Inserted(rows, r, k)) == Anchor(rows)
  {
    InsertedTail(rows, r, k);
    if k == 0 {
      assert ([r] + rows)[1..] == rows;
    } else if Anchor(rows[1..]).Some? && Before(r, Anchor(rows[1..]).value) {
      OldRowKeepsAnchor(rows[1..], r, k - 1);
    } else {
      assert Anchor(rows) == Some(rows[0]);
      SmallAnchor(rows[1..], r, k - 1, rows[0]);
    }
  }

  // Inserting an old row into a tail whose anchor does not reach `top` leaves it that way.
  lemma {:induction false} SmallAnchor(rows: seq<Row>, r: Row, k: nat, top: Row)
    requires top.balance.Some? && Before(r, top) && k <= |rows|
    requires Anchor(rows).Some? ==> Before(Anchor(rows).value, top)
    ensures var after := Anchor(Inserted(rows, r, k)); after.Some? ==> Before(after.value, top)
  {
    InsertedTail(rows, r, k);
    if k == 0 {
      assert ([r] + rows)[1..] == rows;
    } else {
      SmallAnchor(rows[1..], r, k - 1, top);
    }
  }

  // ---------- What newest means ----------

  // Row k is the newest: every other row has an earlier date, or the same date and an earlier stamp.
  predicate IsNewest(rows: seq<Row>, k: nat)
    requires k < |rows|
  {
    forall j :: 0 <= j < |rows| && j != k ==>
      rows[j].key.date < rows[k].key.date
      || (rows[j].key.date == rows[k].key.date && rows[j].createdAt < rows[k].createdAt)
  }

  lemma {:induction false} AnchorIsNewest(rows: seq<Row>, k: nat)
    requires k < |rows| && IsNewest(rows, k) && rows[k].balance.Some?
    ensures Anchor(rows) == Some(rows[k])
  {
    if k > 0 {
      assert forall j :: 0 < j < |rows| ==> rows[j] == rows[1..][j - 1];
      AnchorIsNewest(rows[1..], k - 1);
    } else {
      AnchorIsStated(rows[1..]);
    }
  }

  // A newest row that states a balance states the account's balance.
  lemma NewestStatedIsBalance(rows: seq<Row>, k: nat)
    requires k < |rows| && IsNewest(rows, k) && rows[k].balance.Some?
    ensures CurrentBalance(rows) == rows[k].balance.value
  {
    AnchorIsNewest(rows, k);
    SumAfterSplits(rows, Anchor(rows));
    NothingAfter(rows, rows[k]);
  }

  // A newest row that states none adds its credit to the balance of the other rows, or takes its
  // outflow from it.
  lemma NewestMovementCounts(rows: seq<Row>, k: nat)
    requires k < |rows| && IsNewest(rows, k) && rows[k].balance.None?
    ensures var others, amount := rows[..k] + rows[k + 1..], rows[k].key.amount;
            CurrentBalance(rows)
            == CurrentBalance(others) + (if rows[k].key.kind == Some("credit") then amount else -amount)
  {
    var others, r := rows[..k] + rows[k + 1..], rows[k];
    assert Inserted(others, r, k) == rows;
    AnchorWithout(others, r, k);
    SumAfterSplits(rows, Anchor(rows));
    SumAfterSplits(others, Anchor(rows));
    SumAfterInserted(others, r, k, Anchor(rows));
    AnchorIsStated(rows);
    if Anchor(rows).Some? {
      assert Anchor(rows).value in rows;
    }
  }

  // A row that states no balance is no anchor.
  lemma {:induction false} AnchorWithout(rows: seq<Row>, r: Row, k: nat)
    requires k <= |rows| && r.balance.None?
    ensures Anchor(Inserted(rows, r, k)) == Anchor(rows)
  {
    InsertedTail(rows, r, k);
    if k == 0 {
      assert ([r] + rows)[1..] == rows;
    } else {
      AnchorWithout(rows[1..], r, k - 1);
    }
  }

  // A row older than some stated balance counts for nothing.
  lemma OlderThanStated(rows: seq<Row>, r: Row, k: nat, j: nat)
    requires k <= |rows| && j < |rows| && rows[j].balance.Some?
    requires r.key.date < rows[j].key.date || (r.key.date == rows[j].key.date && r.createdAt < rows[j].createdAt)
    ensures CurrentBalance(Inserted(rows, r, k)) == CurrentBalance(rows)
  {
    AnchorIsStated(rows);
    OldRowIsNeutral(rows, r, k);
  }

  // ---------- Inserting ----------

  // `next` numbers the rows and stamps their creation.
  datatype Table = Table(rows: seq<Row>, next: nat)

  function FindKey(rows: seq<Row>, key: Key): Option<nat> {
    if rows == [] then None
    else if rows[0].key == key then Some(rows[0].id) else FindKey(rows[1..], key)
  }

  predicate IsDuplicate(rows: seq<Row>, key: Key) {
    exists i :: 0 <= i < |rows| && rows[i].key == key
  }

  function Land(t: Table, key: Key, balance: Option<int>, source: string): Table {
    if IsDuplicate(t.rows, key) then t
    else Table(t.rows + [Row(t.next, key, balance, t.next, source)], t.next + 1)
  }

  // The batch, entry by entry, each check seeing the earlier inserts.
  function LandAll(t: Table, user: UserId, account: AccountId, batch: seq<Entry>, source: string): Table {
    if batch == [] then t
    else
      var last := batch[|batch| - 1];
      Land(LandAll(t, user, account, batch[..|batch| - 1], source), KeyOf(user, account, last), last.balance, source)
  }

  datatype Resolved = Resolved(date: int, merchant: Option<string>, amount: int,
                               transactionId: Option<nat>, duplicateOf: Option<nat>)

  function ResolveAll(t: Table, user: UserId, account: AccountId, batch: seq<Entry>): seq<Resolved> {
    if batch == [] then []
    else
      var before, last := batch[..|batch| - 1], batch[|batch| - 1];
      var landed := LandAll(t, user, account, before, "statement");
      var existing := FindKey(landed.rows, KeyOf(user, account, last));
      ResolveAll(t, user, account, before)
      + [Resolved(last.date, last.merchant, last.amount,
                  if existing.None? then Some(landed.next) else None, existing)]
  }

  predicate UniqueKeys(rows: seq<Row>) {
    forall i, j :: 0 <= i < j < |rows| ==> rows[i].key != rows[j].key
  }

  // Keys are unique, and ids and stamps were handed out in order.
  predicate WellFormed(t: Table) {
    && UniqueKeys(t.rows)
    && (forall i :: 0 <= i < |t.rows| ==> t.rows[i].id == t.rows[i].createdAt < t.next)
    && forall i, j :: 0 <= i < j < |t.rows| ==> t.rows[i].createdAt < t.rows[j].createdAt
  }

  function Keys(rows: seq<Row>): set<Key> {
    set i | 0 <= i < |rows| :: rows[i].key
  }

  function BatchKeys(user: UserId, account: AccountId, batch: seq<Entry>): set<Key> {
    set i | 0 <= i < |batch| :: KeyOf(user, account, batch[i])
  }

  lemma {:induction false} FindKeyFinds(rows: seq<Row>, key: Key)
    ensures FindKey(rows, key).Some? <==> IsDuplicate(rows, key)
    ensures FindKey(rows, key).Some? ==>
              exists i :: 0 <= i < |rows| && rows[i].key == key && rows[i].id == FindKey(rows, key).value
  {
    if rows != [] {
      FindKeyFinds(rows[1..], key);
      assert forall i :: 0 < i < |rows| ==> rows[i] == rows[1..][i - 1];
      if rows[0].key == key {
        assert rows[0].id == FindKey(rows, key).value;
      } else if FindKey(rows[1..], key).Some? {
        var i :| 0 <= i < |rows[1..]| && rows[1..][i].key == key && rows[1..][i].id == FindKey(rows[1..], key).value;
        assert rows[i + 1].key == key;
      }
    }
  }

  // ---------- The code paths ----------

  datatype ApprovalError = NotAwaitingApproval | AccountNotFound | NoAccount | ReadOnlyAccount

  function Chosen(account: Option<AccountId>, override: Option<AccountId>): Option<AccountId> {
    if override.Some? then override else account
  }

  function ApprovalVerdict(statement: S.Row, override: Option<AccountId>, synced: map<AccountId, bool>)
    : Result<AccountId, ApprovalError>
  {
    var account := Chosen(statement.account, override);
    if statement.status != S.Normalized then Err(NotAwaitingApproval)
    else if override.Some? && override.value !in synced then Err(AccountNotFound)
    else if account.None? then Err(NoAccount)
    else if account.value in synced && synced[account.value] then Err(ReadOnlyAccount)
    else Ok(account.value)
  }

  // An approval goes ahead on account a exactly when the statement is normalized, a is the account
  // the request names and the user has, or else the statement's own, and a is not synced; each
  // refusal has its own cause.
  lemma ApprovalExactly(statement: S.Row, override: Option<AccountId>, synced: map<AccountId, bool>, a: AccountId)
    ensures var verdict := ApprovalVerdict(statement, override, synced);
            var ready := statement.status == S.Normalized;
            var named := override.Some? && override.value in synced;
            && (verdict == Ok(a) <==>
                  ready && ((named && override.value == a) || (override.None? && statement.account == Some(a)))
                  && !(a in synced && synced[a]))
            && (verdict == Err(NotAwaitingApproval) <==> !ready)
            && (verdict == Err(AccountNotFound) <==> ready && override.Some? && override.value !in synced)
            && (verdict == Err(NoAccount) <==> ready && override.None? && statement.account.None?)
            && (verdict == Err(ReadOnlyAccount) <==>
                  ready && ((named && synced[override.value])
                            || (override.None? && statement.account.Some? && statement.account.value in synced
                                && synced[statement.account.value])))
  {
  }

  class LedgerStore {
    var rows: seq<Row>
    var next: nat

    constructor ()
      ensures Value() == Table([], 0)
    {
      rows, next := [], 0;
    }

    function Value(): Table
      reads this
    {
      Table(rows, next)
    }

    method Create(key: Key, balance: Option<int>, source: string) returns (id: nat)
      modifies this
      ensures id == old(next)
      ensures Value() == Table(old(rows) + [Row(old(next), key, balance, old(next), source)], old(next) + 1)
    {
      id := next;
      rows := rows + [Row(next, key, balance, next, source)];
      next := next + 1;
    }

    // Lands one synced batch; yields the ids of the rows it created.
    method IngestSynced(user: UserId, account: AccountId, batch: seq<Entry>) returns (created: seq<nat>)
      modifies this
      ensures Value() == LandAll(old(Value()), user, account, batch, "synced")
      ensures |created| == |rows| - |old(rows)| && old(rows) <= rows
      ensures forall i :: 0 <= i < |created| ==> created[i] == rows[|old(rows)| + i].id
    {
      created := [];
      for k := 0 to |batch|
        invariant Value() == LandAll(old(Value()), user, account, batch[..k], "synced")
        invariant |created| == |rows| - |old(rows)| && old(rows) <= rows
        invariant forall i :: 0 <= i < |created| ==> created[i] == rows[|old(rows)| + i].id
      {
        var key := KeyOf(user, account, batch[k]);
        assert batch[..k + 1][..k] == batch[..k];
        if IsDuplicate(rows, key) {
          continue;
        }
        var id := Create(key, batch[k].balance, "synced");
        created := created + [id];
      }
      assert batch[..|batch|] == batch;
    }

    // Approves a reviewed batch onto the statement's account, which the request may override;
    // `synced` tells which of the user's accounts are bank-integrated. An override outlives a
    // refusal to write to the account it names.
    method Approve(statement: S.StatementFile, user: UserId, override: Option<AccountId>,
                   synced: map<AccountId, bool>, submitted: seq<Entry>)
      returns (r: Result<seq<Resolved>, ApprovalError>)
      modifies this, statement
      ensures match ApprovalVerdict(old(statement.Value()), override, synced)
              case Err(e) =>
                && r == Err(e) && Value() == old(Value())
                && statement.Value() == old(statement.Value()).(
                     account := if e == ReadOnlyAccount then Chosen(old(statement.account), override)
                                else old(statement.account))
              case Ok(account) =>
                && r == Ok(ResolveAll(old(Value()), user, account, submitted))
                && Value() == LandAll(old(Value()), user, account, submitted, "statement")
                && statement.Value() == old(statement.Value()).(
                     status := S.Approved, failureReason := None, failedPhase := None, account := Some(account))
    {
      if statement.status != S.Normalized {
        return Err(NotAwaitingApproval);
      }
      if override.Some? {
        if override.value !in synced {
          return Err(AccountNotFound);
        }
        statement.account := override;
      }
      if statement.account.None? {
        return Err(NoAccount);
      }
      var account := statement.account.value;
      if account in synced && synced[account] {
        return Err(ReadOnlyAccount);
      }
      var resolved := ResolveBatch(user, account, submitted);
      statement.status, statement.failureReason, statement.failedPhase := S.Approved, None, None;
      r := Ok(resolved);
    }

    // The loop over the submitted rows, inside one database transaction.
    method ResolveBatch(user: UserId, account: AccountId, submitted: seq<Entry>) returns (resolved: seq<Resolved>)
      modifies this
      ensures Value() == LandAll(old(Value()), user, account, submitted, "statement")
      ensures resolved == ResolveAll(old(Value()), user, account, submitted)
    {
      resolved := [];
      for k := 0 to |submitted|
        invariant Value() == LandAll(old(Value()), user, account, submitted[..k], "statement")
        invariant resolved == ResolveAll(old(Value()), user, account, submitted[..k])
      {
        var row := submitted[k];
        var key := KeyOf(user, account, row);
        assert submitted[..k + 1][..k] == submitted[..k];
        FindKeyFinds(rows, key);
        var existing := FindKey(rows, key);
        if existing.Some? {
          resolved := resolved + [Resolved(row.date, row.merchant, row.amount, None, existing)];
          continue;
        }
        var id := Create(key, row.balance, "statement");
        resolved := resolved + [Resolved(row.date, row.merchant, row.amount, Some(id), None)];
      }
      assert submitted[..|submitted|] == submitted;
    }
  }

  // ---------- What batches do ----------

  lemma LandKeepsWellFormed(t: Table, key: Key, balance: Option<int>, source: string)
    requires WellFormed(t)
    ensures WellFormed(Land(t, key, balance, source))
    ensures Keys(Land(t, key, balance, source).rows) == Keys(t.rows) + {key}
  {
    var t' := Land(t, key, balance, source);
    forall k
      ensures k in Keys(t'.rows) <==> k in Keys(t.rows) || k == key
    {
      if k in Keys(t.rows) {
        var i :| 0 <= i < |t.rows| && t.rows[i].key == k;
        assert t'.rows[i].key == k;
      }
      if k == key && !IsDuplicate(t.rows, key) {
        assert t'.rows[|t.rows|].key == key;
      }
    }
  }

  // After a batch the keys are those before and those delivered, each once.
  lemma {:induction false} BatchKeepsWellFormed(t: Table, user: UserId, account: AccountId, batch: seq<Entry>,
                                                source: string)
    requires WellFormed(t)
    ensures var t' := LandAll(t, user, account, batch, source);
            && WellFormed(t') && t.rows <= t'.rows
            && Keys(t'.rows) == Keys(t.rows) + BatchKeys(user, account, batch)
  {
    if batch != [] {
      var before, last := batch[..|batch| - 1], batch[|batch| - 1];
      BatchKeepsWellFormed(t, user, account, before, source);
      BatchKeysAppend(user, account, before, last);
      assert batch == before + [last];
      var key := KeyOf(user, account, last);
      LandsOneMore(t, LandAll(t, user, account, before, source), BatchKeys(user, account, before), key, last.balance,
                   source);
    }
  }

  lemma LandsOneMore(t: Table, mid: Table, keys: set<Key>, key: Key, balance: Option<int>, source: string)
    requires WellFormed(mid) && t.rows <= mid.rows && Keys(mid.rows) == Keys(t.rows) + keys
    ensures var t' := Land(mid, key, balance, source);
            WellFormed(t') && t.rows <= t'.rows && Keys(t'.rows) == Keys(t.rows) + (keys + {key})
  {
    LandKeepsWellFormed(mid, key, balance, source);
  }

  lemma BatchKeysAppend(user: UserId, account: AccountId, batch: seq<Entry>, last: Entry)
    ensures BatchKeys(user, account, batch + [last]) == BatchKeys(user, account, batch) + {KeyOf(user, account, last)}
  {
    var all := batch + [last];
    assert all[|batch|] == last;
    forall k | k in BatchKeys(user, account, batch)
      ensures k in BatchKeys(user, account, all)
    {
      var i :| 0 <= i < |batch| && KeyOf(user, account, batch[i]) == k;
      assert all[i] == batch[i];
    }
  }

  lemma {:induction false} KnownBatchIsNothing(t: Table, user: UserId, account: AccountId, batch: seq<Entry>,
                                               source: string)
    requires BatchKeys(user, account, batch) <= Keys(t.rows)
    ensures LandAll(t, user, account, batch, source) == t
  {
    if batch != [] {
      var before, last := batch[..|batch| - 1], batch[|batch| - 1];
      assert batch == before + [last];
      BatchKeysAppend(user, account, before, last);
      KnownBatchIsNothing(t, user, account, before, source);
      assert KeyOf(user, account, last) in Keys(t.rows);
    }
  }

  // Delivering a batch again inserts nothing.
  lemma ReingestIsNothing(t: Table, user: UserId, account: AccountId, batch: seq<Entry>)
    requires WellFormed(t)
    ensures var once := LandAll(t, user, account, batch, "synced");
            LandAll(once, user, account, batch, "synced") == once
  {
    BatchKeepsWellFormed(t, user, account, batch, "synced");
    KnownBatchIsNothing(LandAll(t, user, account, batch, "synced"), user, account, batch, "synced");
  }

  // The approval's answer has one entry per submitted row, in order. A row is inserted exactly
  // when its key was neither in the ledger nor earlier in the batch; otherwise the entry names
  // a row of the ledger with that key.
  lemma {:induction false} ApprovalPartitions(t: Table, user: UserId, account: AccountId, batch: seq<Entry>)
    requires WellFormed(t)
    ensures var resolved, after := ResolveAll(t, user, account, batch), LandAll(t, user, account, batch, "statement");
            && |resolved| == |batch|
            && forall i :: 0 <= i < |batch| ==>
                 EntryResolved(t, after, user, account, batch, i, resolved[i])
  {
    if batch != [] {
      var before, last := batch[..|batch| - 1], batch[|batch| - 1];
      assert batch == before + [last];
      ApprovalPartitions(t, user, account, before);
      LastResolved(t, user, account, before, last);
      var mid, after := LandAll(t, user, account, before, "statement"), LandAll(t, user, account, batch, "statement");
      var resolved := ResolveAll(t, user, account, batch);
      forall i | 0 <= i < |before|
        ensures EntryResolved(t, after, user, account, batch, i, resolved[i])
      {
        EntryStaysResolved(t, mid, after, user, account, before, last, i, resolved[i]);
      }
    }
  }

  // The entry of the last row, given the ledger as the earlier rows left it.
  lemma LastResolved(t: Table, user: UserId, account: AccountId, before: seq<Entry>, last: Entry)
    requires WellFormed(t)
    ensures var batch, n := before + [last], |before|;
            var mid := LandAll(t, user, account, before, "statement");
            var after := LandAll(t, user, account, batch, "statement");
            && mid.rows <= after.rows
            && |ResolveAll(t, user, account, before)| == |ResolveAll(t, user, account, batch)| - 1
            && ResolveAll(t, user, account, before) <= ResolveAll(t, user, account, batch)
            && EntryResolved(t, after, user, account, batch, n,
                             ResolveAll(t, user, account, batch)[|ResolveAll(t, user, account, before)|])
  {
    var batch, n := before + [last], |before|;
    assert batch[..n] == before && batch[n] == last;
    BatchKeepsWellFormed(t, user, account, before, "statement");
    var mid, after := LandAll(t, user, account, before, "statement"), LandAll(t, user, account, batch, "statement");
    var key := KeyOf(user, account, last);
    assert after == Land(mid, key, last.balance, "statement");
    FindKeyFinds(mid.rows, key);
    EarlierKey(user, account, before, last);
    assert IsDuplicate(mid.rows, key) <==> key in Keys(mid.rows);
    if IsDuplicate(mid.rows, key) {
      var j :| 0 <= j < |mid.rows| && mid.rows[j].key == key && mid.rows[j].id == FindKey(mid.rows, key).value;
      assert after.rows[j].id == mid.rows[j].id && after.rows[j].key == key;
    } else {
      assert after.rows[|mid.rows|].id == mid.next && after.rows[|mid.rows|].key == key;
    }
  }

  lemma EarlierKey(user: UserId, account: AccountId, before: seq<Entry>, last: Entry)
    ensures KeyOf(user, account, last) !in BatchKeys(user, account, before)
       <==> forall j :: 0 <= j < |before| ==> KeyOf(user, account, (before + [last])[j]) != KeyOf(user, account, last)
  {
    var batch := before + [last];
    assert forall j :: 0 <= j < |before| ==> batch[j] == before[j];
    assert KeyOf(user, account, last) in BatchKeys(user, account, before)
      <==> exists j :: 0 <= j < |before| && KeyOf(user, account, before[j]) == KeyOf(user, account, last);
  }

  predicate EntryResolved(t: Table, after: Table, user: UserId, account: AccountId, batch: seq<Entry>, i: nat,
                          e: Resolved)
    requires i < |batch|
  {
    var key := KeyOf(user, account, batch[i]);
    && e.date == batch[i].date && e.merchant == batch[i].merchant && e.amount == batch[i].amount
    && (e.transactionId.Some? <==>
          key !in Keys(t.rows) && forall j :: 0 <= j < i ==> KeyOf(user, account, batch[j]) != key)
    && (e.transactionId.Some? <==> e.duplicateOf.None?)
    && HasRow(after.rows, if e.transactionId.Some? then e.transactionId.value else e.duplicateOf.value, key)
  }

  predicate HasRow(rows: seq<Row>, id: nat, key: Key) {
    exists j :: 0 <= j < |rows| && rows[j].id == id && rows[j].key == key
  }

  lemma EntryStaysResolved(t: Table, mid: Table, after: Table, user: UserId, account: AccountId,
                           before: seq<Entry>, last: Entry, i: nat, e: Resolved)
    requires i < |before| && EntryResolved(t, mid, user, account, before, i, e)
    requires mid.rows <= after.rows
    ensures EntryResolved(t, after, user, account, before + [last], i, e)
  {
    var batch := before + [last];
    assert forall j :: 0 <= j < |before| ==> batch[j] == before[j];
    var id := if e.transactionId.Some? then e.transactionId.value else e.duplicateOf.value;
    var key := KeyOf(user, account, before[i]);
    var j :| 0 <= j < |mid.rows| && mid.rows[j].id == id && mid.rows[j].key == key;
    assert after.rows[j] == mid.rows[j];
  }

  // Every row a batch adds is that of the first entry with its key, field by field, stating the
  // entry's balance; it is numbered and stamped in order and names the batch's source.
  predicate RowOf(r: Row, user: UserId, account: AccountId, e: Entry, source: string) {
    && r.key.user == user && r.key.account == account && r.key.date == e.date && r.key.amount == e.amount
    && r.key.merchant == e.merchant && r.key.kind == e.kind
    && r.balance == e.balance && r.source == source && r.id == r.createdAt
  }

  lemma {:induction false} RowsComeFromEntries(t: Table, user: UserId, account: AccountId, batch: seq<Entry>,
                                               source: string)
    ensures var after := LandAll(t, user, account, batch, source);
            && t.rows <= after.rows && after.next == t.next + |after.rows| - |t.rows|
            && forall i :: |t.rows| <= i < |after.rows| ==>
                 after.rows[i].id == t.next + i - |t.rows| && HasEntry(after.rows[i], user, account, batch, source)
  {
    if batch != [] {
      var before, last := batch[..|batch| - 1], batch[|batch| - 1];
      RowsComeFromEntries(t, user, account, before, source);
      var mid, after := LandAll(t, user, account, before, source), LandAll(t, user, account, batch, source);
      forall i | |t.rows| <= i < |after.rows|
        ensures HasEntry(after.rows[i], user, account, batch, source)
      {
        if i < |mid.rows| {
          var j :| 0 <= j < |before| && RowOf(mid.rows[i], user, account, before[j], source);
          assert RowOf(after.rows[i], user, account, batch[j], source);
        } else {
          assert RowOf(after.rows[i], user, account, batch[|batch| - 1], source);
        }
      }
    }
  }

  predicate HasEntry(r: Row, user: UserId, account: AccountId, batch: seq<Entry>, source: string) {
    exists j :: 0 <= j < |batch| && RowOf(r, user, account, batch[j], source)
  }

  // ---------- Runs of syncs and approvals ----------

  datatype Op = Sync(user: UserId, account: AccountId, batch: seq<Entry>)
              | Approval(user: UserId, account: AccountId, batch: seq<Entry>)

  function RunOps(ops: seq<Op>): Table {
    if ops == [] then Table([], 0)
    else
      var op := ops[|ops| - 1];
      LandAll(RunOps(ops[..|ops| - 1]), op.user, op.account, op.batch, if op.Sync? then "synced" else "statement")
  }

  function Delivered(ops: seq<Op>): set<Key> {
    if ops == [] then {}
    else
      var op := ops[|ops| - 1];
      Delivered(ops[..|ops| - 1]) + BatchKeys(op.user, op.account, op.batch)
  }

  // Whatever mix of syncs and approvals ran, the ledger holds each key delivered exactly once.
  lemma {:induction false} RunKeepsWellFormed(ops: seq<Op>)
    ensures WellFormed(RunOps(ops)) && Keys(RunOps(ops).rows) == Delivered(ops)
  {
    if ops != [] {
      var op := ops[|ops| - 1];
      RunKeepsWellFormed(ops[..|ops| - 1]);
      var source := if op.Sync? then "synced" else "statement";
      BatchKeepsWellFormed(RunOps(ops[..|ops| - 1]), op.user, op.account, op.batch, source);
    }
  }

  lemma {:induction false} OfRows(rows: seq<Row>, account: AccountId)
    ensures forall r :: r in Of(rows, account) <==> r in rows && r.key.account == account
  {
    if rows != [] {
      OfRows(rows[1..], account);
      assert rows == [rows[0]] + rows[1..];
    }
  }

  predicate InOrder(a: Row, b: Row) {
    a.createdAt < b.createdAt && a.key != b.key
  }

  predicate AllInOrder(rows: seq<Row>) {
    forall i, j :: 0 <= i < j < |rows| ==> InOrder(rows[i], rows[j])
  }

  lemma {:induction false} OfInOrder(rows: seq<Row>, account: AccountId)
    requires AllInOrder(rows)
    ensures AllInOrder(Of(rows, account))
  {
    if rows != [] {
      OfInOrder(rows[1..], account);
      OfRows(rows[1..], account);
      var rest := Of(rows[1..], account);
      forall j | 0 <= j < |rest|
        ensures InOrder(rows[0], rest[j])
      {
        assert rest[j] in rest;
        var k :| 0 <= k < |rows[1..]| && rows[1..][k] == rest[j];
        assert rows[k + 1] == rest[j];
      }
    }
  }

  lemma OrderGivesDistinct(rows: seq<Row>)
    requires AllInOrder(rows)
    ensures DistinctStamps(rows) && UniqueKeys(rows)
  {
    assert forall i, j :: 0 <= i < j < |rows| ==> InOrder(rows[i], rows[j]);
  }

  // So the balance of an account is always the replay of its rows.
  lemma BalanceReplaysLedger(ops: seq<Op>, account: AccountId)
    ensures var own := Of(RunOps(ops).rows, account);
            CurrentBalance(own) == Replay(Sorted(own))
  {
    RunKeepsWellFormed(ops);
    OfInOrder(RunOps(ops).rows, account);
    OrderGivesDistinct(Of(RunOps(ops).rows, account));
    BalanceIsReplay(Of(RunOps(ops).rows, account));
  }

  // ---------- Balances without stated balances ----------

  ghost function SumOver(keys: set<Key>): int {
    if keys == {} then 0
    else
      var k :| k in keys;
      Signed(k) + SumOver(keys - {k})
  }

  lemma {:induction false} SumOverAdd(keys: set<Key>, k: Key)
    requires k !in keys
    ensures SumOver(keys + {k}) == SumOver(keys) + Signed(k)
    decreases keys
  {
    var all := keys + {k};
    var first :| first in all && SumOver(all) == Signed(first) + SumOver(all - {first});
    if first == k {
      assert all - {k} == keys;
    } else {
      SumOverAdd(keys - {first}, k);
      assert all - {first} == (keys - {first}) + {k};
      SumOverAdd(keys - {first}, first);
      assert keys == (keys - {first}) + {first};
    }
  }

  lemma {:induction false} SumOfUniqueRows(rows: seq<Row>)
    requires UniqueKeys(rows)
    ensures SumAfter(rows, None) == SumOver(Keys(rows))
  {
    if rows != [] {
      SumOfUniqueRows(rows[1..]);
      assert rows[0].key !in Keys(rows[1..]);
      forall k
        ensures k in Keys(rows) <==> k in Keys(rows[1..]) || k == rows[0].key
      {
        if k in Keys(rows[1..]) {
          var i :| 0 <= i < |rows[1..]| && rows[1..][i].key == k;
          assert rows[i + 1].key == k;
        }
        if k in Keys(rows) {
          var i :| 0 <= i < |rows| && rows[i].key == k;
          assert i == 0 || rows[1..][i - 1].key == k;
        }
      }
      assert Keys(rows) == Keys(rows[1..]) + {rows[0].key};
      SumOverAdd(Keys(rows[1..]), rows[0].key);
    }
  }

  predicate StatesNone(ops: seq<Op>, account: AccountId) {
    forall i :: 0 <= i < |ops| && ops[i].account == account ==>
      forall j :: 0 <= j < |ops[i].batch| ==> ops[i].batch[j].balance.None?
  }

  predicate Unstated(rows: seq<Row>, own: AccountId) {
    forall i :: 0 <= i < |rows| ==> rows[i].key.account != own || rows[i].balance.None?
  }

  lemma {:induction false} LandedStatesNone(t: Table, user: UserId, account: AccountId, batch: seq<Entry>,
                                            source: string, own: AccountId)
    requires Unstated(t.rows, own)
    requires account == own ==> forall j :: 0 <= j < |batch| ==> batch[j].balance.None?
    ensures Unstated(LandAll(t, user, account, batch, source).rows, own)
  {
    if batch != [] {
      var before := batch[..|batch| - 1];
      assert forall j :: 0 <= j < |before| ==> before[j] == batch[j];
      LandedStatesNone(t, user, account, before, source, own);
    }
  }

  lemma {:induction false} RunStatesNone(ops: seq<Op>, own: AccountId)
    requires StatesNone(ops, own)
    ensures Unstated(RunOps(ops).rows, own)
  {
    if ops != [] {
      var before, op := ops[..|ops| - 1], ops[|ops| - 1];
      assert forall i :: 0 <= i < |before| ==> before[i] == ops[i];
      RunStatesNone(before, own);
      LandedStatesNone(RunOps(before), op.user, op.account, op.batch, if op.Sync? then "synced" else "statement", own);
    }
  }

  lemma {:induction false} UnstatedHasNoAnchor(rows: seq<Row>, own: AccountId)
    requires Unstated(rows, own)
    ensures Anchor(Of(rows, own)).None?
  {
    if rows != [] {
      UnstatedHasNoAnchor(rows[1..], own);
      var rest := Of(rows[1..], own);
      assert ([rows[0]] + rest)[1..] == rest;
      assert [] + rest == rest;
    }
  }

  // When no delivered row of an account states a balance, the balance is the signed sum over
  // the distinct keys ever delivered to it, however the batches repeat, overlap or are ordered.
  lemma BalanceIsSumOfDelivered(ops: seq<Op>, account: AccountId)
    requires StatesNone(ops, account)
    ensures CurrentBalance(Of(RunOps(ops).rows, account))
         == SumOver(set k | k in Delivered(ops) && k.account == account)
  {
    var rows := RunOps(ops).rows;
    var own := Of(rows, account);
    RunKeepsWellFormed(ops);
    RunStatesNone(ops, account);
    OfRows(rows, account);
    OfInOrder(rows, account);
    OrderGivesDistinct(own);
    UnstatedHasNoAnchor(rows, account);
    SumAfterSplits(own, None);
    SumOfUniqueRows(own);
    OwnKeys(rows, account);
  }

  lemma OwnKeys(rows: seq<Row>, account: AccountId)
    ensures Keys(Of(rows, account)) == set k | k in Keys(rows) && k.account == account
  {
    var own := Of(rows, account);
    OfRows(rows, account);
    forall k | k in Keys(own)
      ensures k in Keys(rows) && k.account == account
    {
      var i :| 0 <= i < |own| && own[i].key == k;
      assert own[i] in own;
      var j :| 0 <= j < |rows| && rows[j] == own[i];
    }
    forall k | k in Keys(rows) && k.account == account
      ensures k in Keys(own)
    {
      var j :| 0 <= j < |rows| && rows[j].key == k;
      assert rows[j] in own;
      var i :| 0 <= i < |own| && own[i] == rows[j];
    }
  }
}
