/**
 Request handlers of the bank login service running side by side. Each call on the store holds
 the lock and is one atomic step, except that attaching a password to a challenge is two: a
 verifying handler checks the password and copies the customer without the lock, from a
 challenge that may be changed meanwhile. Challenge ids and codes are freshly generated.
 */
module AuthProtocol {
  import opened Wrappers
  import opened AuthCodes

  // Look up the challenge, check the password, copy the customer, mint the code, remove the
  // challenge. `found` is the time of the look-up and `at` that of the check.
  datatype VerifyPhase =
    | Arrived
    | Holding(found: real)
    | Checked(found: real, at: real)
    | Copied(customer: Name, found: real, at: real)
    | Minted(found: real)
    | Closed

  datatype RedeemPhase = Sent | Redeemed(record: Code, at: real) | Answered

  datatype Handler =
    | Verify(challenge: ChallengeId, otp: string, verify: VerifyPhase)
    | Redeem(code: CodeId, client: Name, redirect: Name, clientOk: bool, redeem: RedeemPhase)

  // A call that holds the lock and has written the customer but not yet the password.
  datatype Sending = Sending(id: ChallengeId, customer: Name, otp: string)

  // What happened, kept as history: passwords attached, codes minted, tokens issued.
  datatype Issue = Issue(challenge: ChallengeId, customer: Name, otp: string, at: real)
  datatype Mint = Mint(code: CodeId, challenge: ChallengeId, otp: string, foundAt: real, checkedAt: real, at: real)
  datatype Token = Token(code: CodeId, client: Name, redirect: Name, customer: Name, redeemedAt: real)

  // `named` holds the customers ever attached to each challenge, and `created` the time of each
  // challenge's creation, which is history too.
  datatype State = State(now: real, store: Store, sending: Option<Sending>, handlers: seq<Handler>,
                         named: set<(ChallengeId, Name)>, issues: seq<Issue>, mints: seq<Mint>, tokens: seq<Token>,
                         created: map<ChallengeId, real>)

  datatype Event =
    | Tick(passed: real)
    | Authorize(id: ChallengeId, client: Name, redirect: Name)
    | StartLogin(id: ChallengeId)
    | SendOtp(id: ChallengeId, customer: Customer, otp: string)
    | FinishSend
    | Arrive(handler: Handler)
    | Step(index: nat, code: CodeId)

  const Initial := State(0.0, EmptyStore, None, [], {}, [], [], [], map[])

  predicate Starting(h: Handler) {
    if h.Verify? then h.verify == Arrived else h.redeem == Sent
  }

  // ---------- Steps ----------

  predicate HandlerNeedsLock(h: Handler) {
    match h
    case Verify(_, _, phase) => phase.Arrived? || phase.Copied? || phase.Minted?
    case Redeem(_, client, redirect, clientOk, phase) =>
      (phase.Sent? && clientOk) || (phase.Redeemed? && Bound(phase.record, client, redirect))
  }

  predicate NeedsLock(s: State, e: Event) {
    match e
    case Tick(_) => false
    case Authorize(_, _, _) => true
    case StartLogin(_) => true
    case SendOtp(_, _, _) => true
    case FinishSend => false
    case Arrive(_) => false
    case Step(i, _) => i < |s.handlers| && HandlerNeedsLock(s.handlers[i])
  }

  function Proceed(s: State, i: nat, phase: VerifyPhase): State
    requires i < |s.handlers| && s.handlers[i].Verify?
  {
    s.(handlers := s.handlers[i := s.handlers[i].(verify := phase)])
  }

  function StepVerify(s: State, i: nat, code: CodeId): Option<State>
    requires i < |s.handlers| && s.handlers[i].Verify?
  {
    var h := s.handlers[i];
    match h.verify
    case Arrived =>
      var (store, found) := GetChallenge(s.store, h.challenge, s.now);
      Some(Proceed(s.(store := store), i, if found then Holding(s.now) else Closed))
    case Holding(found) =>
      if h.challenge !in s.store.objects then None
      else
        var accepted := OtpAccepted(s.store.objects[h.challenge], h.otp, s.now);
        Some(Proceed(s, i, if accepted then Checked(found, s.now) else Closed))
    case Checked(found, at) =>
      if h.challenge !in s.store.objects || s.store.objects[h.challenge].customer.None? then None
      else Some(Proceed(s, i, Copied(s.store.objects[h.challenge].customer.value.id, found, at)))
    case Copied(customer, found, at) =>
      if h.challenge !in s.store.objects || code in s.store.codes then None
      else
        var c := s.store.objects[h.challenge];
        Some(Proceed(s.(store := CreateCode(s.store, code, c.client, c.redirect, customer, s.now),
                        mints := s.mints + [Mint(code, h.challenge, h.otp, found, at, s.now)]), i, Minted(found)))
    case Minted(_) => Some(Proceed(s.(store := PopChallenge(s.store, h.challenge)), i, Closed))
    case Closed => None
  }

  function StepRedeem(s: State, i: nat): Option<State>
    requires i < |s.handlers| && s.handlers[i].Redeem?
  {
    var h := s.handlers[i];
    match h.redeem
    case Sent =>
      if !h.clientOk then Some(s.(handlers := s.handlers[i := h.(redeem := Answered)]))
      else
        var (store, record) := Consume(s.store, h.code, s.now);
        var redeem := if record.None? then Answered else Redeemed(record.value, s.now);
        Some(s.(store := store, handlers := s.handlers[i := h.(redeem := redeem)]))
    case Redeemed(record, at) =>
      var done := s.handlers[i := h.(redeem := Answered)];
      if !Bound(record, h.client, h.redirect) then Some(s.(handlers := done))
      else Some(s.(handlers := done,
                   store := s.store.(refresh := s.store.refresh + [Refresh(h.client, record.customer)]),
                   tokens := s.tokens + [Token(h.code, h.client, h.redirect, record.customer, at)]))
    case Answered => None
  }

  function Apply(s: State, e: Event): Option<State> {
    if s.sending.Some? && NeedsLock(s, e) then None
    else
      match e
      case Tick(passed) => if passed < 0.0 then None else Some(s.(now := s.now + passed))
      case Authorize(id, client, redirect) =>
        if id in s.store.objects || id in s.created then None
        else Some(s.(store := CreateChallenge(s.store, id, client, redirect, s.now), created := s.created[id := s.now]))
      case StartLogin(id) => Some(s.(store := GetChallenge(s.store, id, s.now).0))
      case SendOtp(id, customer, otp) =>
        if id !in s.store.listed || id !in s.store.objects then None
        else Some(s.(store := WriteCustomer(s.store, id, customer), named := s.named + {(id, customer.id)},
                     sending := Some(Sending(id, customer.id, otp))))
      case FinishSend =>
        if s.sending.None? || s.sending.value.id !in s.store.objects then None
        else
          var Sending(id, customer, otp) := s.sending.value;
          Some(s.(store := WritePassword(s.store, id, otp, s.now), sending := None,
                  issues := s.issues + [Issue(id, customer, otp, s.now)]))
      case Arrive(h) => if Starting(h) then Some(s.(handlers := s.handlers + [h])) else None
      case Step(i, code) =>
        if i >= |s.handlers| then None
        else if s.handlers[i].Verify? then StepVerify(s, i, code) else StepRedeem(s, i)
  }

  function ApplyAll(s: State, events: seq<Event>): Option<State> {
    if events == [] then Some(s)
    else
      var before := ApplyAll(s, events[..|events| - 1]);
      if before.None? then None else Apply(before.value, events[|events| - 1])
  }

  function StateAfter(events: seq<Event>): Option<State> {
    ApplyAll(Initial, events)
  }

  // The states a list of events passes through, one by one.
  predicate Path(events: seq<Event>, states: seq<State>) {
    && |states| == |events| + 1
    && forall k :: 0 <= k < |events| ==> Apply(states[k], events[k]) == Some(states[k + 1])
  }

  lemma {:induction false} Leads(events: seq<Event>, more: seq<Event>, states: seq<State>)
    requires Path(more, states) && StateAfter(events) == Some(states[0])
    ensures StateAfter(events + more) == Some(states[|more|])
  {
    var n := |more|;
    if n == 0 {
      assert events + more == events;
    } else {
      Leads(events, more[..n - 1], states[..n]);
      assert (events + more)[..|events + more| - 1] == events + more[..n - 1];
    }
  }

  // ---------- Invariants of every run ----------

  predicate SentAt(issue: Issue, id: ChallengeId, otp: string, at: real) {
    issue.challenge == id && issue.otp == otp && issue.at <= at <= issue.at + 300.0
  }

  // The password had been attached to the challenge, for whatever customer, no more than five
  // minutes before.
  predicate PasswordSent(issues: seq<Issue>, id: ChallengeId, otp: string, at: real) {
    exists k :: 0 <= k < |issues| && SentAt(issues[k], id, otp, at)
  }

  // It had been attached for this customer.
  predicate OtpSent(issues: seq<Issue>, id: ChallengeId, customer: Name, otp: string, at: real) {
    exists k :: 0 <= k < |issues| && SentAt(issues[k], id, otp, at) && issues[k].customer == customer
  }

  predicate SendingOn(s: State, id: ChallengeId) {
    s.sending.Some? && s.sending.value.id == id
  }

  predicate FromIssue(issue: Issue, id: ChallengeId, p: Password, now: real) {
    issue.challenge == id && issue.otp == p.otp && p.expiresAt == issue.at + 300.0 && issue.at <= now
  }

  // No later password was attached to the same challenge.
  predicate IsLatest(issues: seq<Issue>, k: nat)
    requires k < |issues|
  {
    forall j :: k < j < |issues| ==> issues[j].challenge != issues[k].challenge
  }

  // A challenge expires five minutes after its creation. The password on it is the latest attached
  // to it, and was attached for the customer on it unless the customer is just being replaced.
  predicate ChallengeBacked(id: ChallengeId, c: Challenge, s: State) {
    && id in s.created && s.created[id] <= s.now && c.expiresAt == s.created[id] + 300.0
    && (c.customer.Some? ==> (id, c.customer.value.id) in s.named)
    && (c.password.None? ==> forall k :: 0 <= k < |s.issues| ==> s.issues[k].challenge != id)
    && (SendingOn(s, id) ==> c.customer.Some? && c.customer.value.id == s.sending.value.customer)
    && (c.password.Some? ==>
          c.customer.Some?
          && exists k :: 0 <= k < |s.issues| && FromIssue(s.issues[k], id, c.password.value, s.now)
                      && IsLatest(s.issues, k)
                      && (SendingOn(s, id) || c.customer.value.id == s.issues[k].customer))
  }

  // The challenge was looked up within five minutes of its creation.
  predicate FoundInTime(s: State, id: ChallengeId, found: real) {
    id in s.created && s.created[id] <= found <= s.created[id] + 300.0
  }

  // A minted code carries the client and redirect URI of its challenge and a customer attached
  // to it, and a password attached to it was checked.
  predicate MintBacked(m: Mint, s: State) {
    && m.code in s.store.codes && m.challenge in s.store.objects
    && var (code, c) := (s.store.codes[m.code], s.store.objects[m.challenge]);
       && code.client == c.client && code.redirect == c.redirect
       && code.createdAt == m.at && code.expiresAt == m.at + 60.0
       && (m.challenge, code.customer) in s.named
       && FoundInTime(s, m.challenge, m.foundAt) && m.foundAt <= m.checkedAt
       && m.checkedAt <= m.at && PasswordSent(s.issues, m.challenge, m.otp, m.checkedAt)
  }

  // The code of a token was marked used, carries what the token says, and was redeemed in time.
  predicate TokenBacked(t: Token, s: State) {
    && t.code in s.store.codes
    && var code := s.store.codes[t.code];
       code.used && code.client == t.client && code.redirect == t.redirect && code.customer == t.customer
       && code.createdAt <= t.redeemedAt <= code.expiresAt && t.redeemedAt <= s.now
  }

  predicate HoldsRecord(h: Handler) {
    h.Redeem? && h.redeem.Redeemed?
  }

  predicate HasLookedUp(h: Handler) {
    h.Verify? && !h.verify.Arrived? && !h.verify.Closed?
  }

  predicate PastCheck(h: Handler) {
    h.Verify? && (h.verify.Checked? || h.verify.Copied?)
  }

  // A handler looked its challenge up in time; one past its check saw an attached password; one
  // between redeeming and answering holds the used record.
  predicate HandlerBacked(h: Handler, s: State) {
    && (HasLookedUp(h) ==> FoundInTime(s, h.challenge, h.verify.found) && h.verify.found <= s.now)
    && (PastCheck(h) ==> h.challenge in s.store.objects && h.verify.found <= h.verify.at <= s.now
                         && PasswordSent(s.issues, h.challenge, h.otp, h.verify.at))
    && (h.Verify? && h.verify.Copied? ==> (h.challenge, h.verify.customer) in s.named)
    && (HoldsRecord(h) ==>
          && h.code in s.store.codes && s.store.codes[h.code] == h.redeem.record && h.redeem.record.used
          && h.redeem.record.createdAt <= h.redeem.at <= h.redeem.record.expiresAt && h.redeem.at <= s.now)
  }

  predicate SameCode(g: Handler, h: Handler) {
    HoldsRecord(g) && HoldsRecord(h) && g.code == h.code
  }

  // A code is in the hands of at most one of: a redeeming handler, an issued token.
  predicate RedeemedOnce(s: State) {
    && (forall i, j :: 0 <= i < j < |s.handlers| ==> !SameCode(s.handlers[i], s.handlers[j]))
    && (forall i, k :: 0 <= i < |s.handlers| && 0 <= k < |s.tokens| ==>
          !(HoldsRecord(s.handlers[i]) && s.handlers[i].code == s.tokens[k].code))
    && (forall j, k :: 0 <= j < k < |s.tokens| ==> s.tokens[j].code != s.tokens[k].code)
  }

  // Every code in the store was minted, and by one mint.
  predicate CodesMinted(s: State) {
    && (forall j, k :: 0 <= j < k < |s.mints| ==> s.mints[j].code != s.mints[k].code)
    && (forall code :: code in s.store.codes ==> WasMinted(s.mints, code))
    && forall code :: code in s.store.codes ==> s.store.codes[code].createdAt <= s.now
  }

  predicate WasMinted(mints: seq<Mint>, code: CodeId) {
    exists k :: 0 <= k < |mints| && mints[k].code == code
  }

  predicate ChallengesBacked(s: State) {
    && s.store.listed <= s.store.objects.Keys
    && (forall k :: 0 <= k < |s.issues| ==> s.issues[k].challenge in s.store.objects)
    && forall id :: id in s.store.objects ==> ChallengeBacked(id, s.store.objects[id], s)
  }

  predicate MintsBacked(s: State) {
    forall k :: 0 <= k < |s.mints| ==> MintBacked(s.mints[k], s)
  }

  predicate TokensBacked(s: State) {
    forall k :: 0 <= k < |s.tokens| ==> TokenBacked(s.tokens[k], s)
  }

  predicate HandlersBacked(s: State) {
    forall i :: 0 <= i < |s.handlers| ==> HandlerBacked(s.handlers[i], s)
  }

  predicate Inv(s: State) {
    ChallengesBacked(s) && MintsBacked(s) && TokensBacked(s) && HandlersBacked(s) && RedeemedOnce(s) && CodesMinted(s)
  }

  // ---------- What no step takes back ----------

  predicate CodeStays(before: Code, after: Code) {
    after == before || after == before.(used := true)
  }

  predicate Grows(s: State, s': State) {
    && s.now <= s'.now && s.named <= s'.named && s.issues <= s'.issues
    && (forall id :: id in s.created ==> id in s'.created && s'.created[id] == s.created[id])
    && (forall id :: id in s.store.objects ==>
          id in s'.store.objects && s'.store.objects[id].client == s.store.objects[id].client
          && s'.store.objects[id].redirect == s.store.objects[id].redirect)
    && forall code :: code in s.store.codes ==>
         code in s'.store.codes && CodeStays(s.store.codes[code], s'.store.codes[code])
  }

  lemma StepGrows(s: State, e: Event)
    requires Apply(s, e).Some?
    ensures Grows(s, Apply(s, e).value)
  {
    match e
    case Step(i, code) =>
      if s.handlers[i].Verify? {
        VerifyGrows(s, i, code);
      } else {
        RedeemGrows(s, i);
      }
    case _ =>
  }

  lemma VerifyGrows(s: State, i: nat, code: CodeId)
    requires i < |s.handlers| && s.handlers[i].Verify? && StepVerify(s, i, code).Some?
    ensures Grows(s, StepVerify(s, i, code).value)
  {
  }

  lemma RedeemGrows(s: State, i: nat)
    requires i < |s.handlers| && s.handlers[i].Redeem? && StepRedeem(s, i).Some?
    ensures Grows(s, StepRedeem(s, i).value)
  {
  }

  // Only the stepping handler changes, and a new one has yet to start.
  lemma HandlerFrame(s: State, e: Event)
    requires Apply(s, e).Some?
    ensures var s' := Apply(s, e).value;
            && |s.handlers| <= |s'.handlers|
            && (forall j :: 0 <= j < |s.handlers| && !(e.Step? && e.index == j) ==> s'.handlers[j] == s.handlers[j])
            && (forall j :: |s.handlers| <= j < |s'.handlers| ==> Starting(s'.handlers[j]))
            && (e.Step? ==> e.index < |s.handlers| == |s'.handlers|)
  {
  }

  lemma SentStays(issues: seq<Issue>, more: seq<Issue>, id: ChallengeId, otp: string, at: real)
    requires issues <= more && PasswordSent(issues, id, otp, at)
    ensures PasswordSent(more, id, otp, at)
  {
    var k :| 0 <= k < |issues| && SentAt(issues[k], id, otp, at);
    assert more[k] == issues[k];
  }

  lemma BackedStays(s: State, s': State)
    requires Grows(s, s')
    ensures forall m: Mint :: MintBacked(m, s) ==> MintBacked(m, s')
    ensures forall t: Token :: TokenBacked(t, s) ==> TokenBacked(t, s')
    ensures forall h: Handler :: HandlerBacked(h, s) ==> HandlerBacked(h, s')
  {
    forall m: Mint | MintBacked(m, s)
      ensures MintBacked(m, s')
    {
      SentStays(s.issues, s'.issues, m.challenge, m.otp, m.checkedAt);
    }
    forall h: Handler | HandlerBacked(h, s)
      ensures HandlerBacked(h, s')
    {
      if PastCheck(h) {
        SentStays(s.issues, s'.issues, h.challenge, h.otp, h.verify.at);
      }
    }
  }

  // ---------- Each clause is kept ----------

  lemma {:induction false} RunsKeepInv(events: seq<Event>)
    requires StateAfter(events).Some?
    ensures Inv(StateAfter(events).value)
  {
    if events != [] {
      RunsKeepInv(events[..|events| - 1]);
      InvStep(StateAfter(events[..|events| - 1]).value, events[|events| - 1]);
    }
  }

  lemma InvStep(s: State, e: Event)
    requires Inv(s) && Apply(s, e).Some?
    ensures Inv(Apply(s, e).value)
  {
    StepGrows(s, e);
    BackedStays(s, Apply(s, e).value);
    ChallengesStayBacked(s, e);
    MintsStayBacked(s, e);
    HandlersStayBacked(s, e);
    TokensStayBacked(s, e);
    CodesStayMinted(s, e);
    RedeemedStaysOnce(s, e);
  }

  lemma ChallengesStayBacked(s: State, e: Event)
    requires Inv(s) && Apply(s, e).Some?
    ensures ChallengesBacked(Apply(s, e).value)
  {
    var s' := Apply(s, e).value;
    StepGrows(s, e);
    KnownIssues(s, e);
    forall id | id in s'.store.objects
      ensures ChallengeBacked(id, s'.store.objects[id], s')
    {
      if id in s.store.objects {
        ChallengeStaysBacked(s, e, id);
      } else {
        OnlyAuthorized(s, e, id);
        NewChallengeBacked(s, e.client, e.redirect, id);
      }
    }
  }

  lemma OnlyAuthorized(s: State, e: Event, id: ChallengeId)
    requires Apply(s, e).Some? && id in Apply(s, e).value.store.objects && id !in s.store.objects
    ensures e.Authorize? && e.id == id
  {
  }

  lemma NewChallengeBacked(s: State, client: Name, redirect: Name, id: ChallengeId)
    requires ChallengesBacked(s) && (s.sending.Some? ==> s.sending.value.id in s.store.objects)
    requires Apply(s, Authorize(id, client, redirect)).Some?
    ensures var s' := Apply(s, Authorize(id, client, redirect)).value; ChallengeBacked(id, s'.store.objects[id], s')
  {
  }

  lemma KnownIssues(s: State, e: Event)
    requires ChallengesBacked(s) && Apply(s, e).Some?
    ensures var s' := Apply(s, e).value;
            && s'.store.listed <= s'.store.objects.Keys
            && forall k :: 0 <= k < |s'.issues| ==> s'.issues[k].challenge in s'.store.objects
  {
  }

  lemma ChallengeStaysBacked(s: State, e: Event, id: ChallengeId)
    requires Apply(s, e).Some? && id in s.store.objects && ChallengeBacked(id, s.store.objects[id], s)
    requires forall x :: x in s.created ==>
               x in Apply(s, e).value.created && Apply(s, e).value.created[x] == s.created[x]
    ensures ChallengeBacked(id, Apply(s, e).value.store.objects[id], Apply(s, e).value)
  {
    match e
    case SendOtp(on, customer, otp) => BackedWhenSent(s, on, customer, otp, id);
    case FinishSend => BackedWhenFinished(s, id);
    case _ =>
      LeavesAlone(s, e, id);
      BackedAsBefore(s, Apply(s, e).value, id);
  }

  // Every other event leaves the challenge, the attach under way and the passwords attached.
  lemma LeavesAlone(s: State, e: Event, id: ChallengeId)
    requires Apply(s, e).Some? && id in s.store.objects && !e.SendOtp? && !e.FinishSend?
    ensures var s' := Apply(s, e).value;
            && id in s'.store.objects && s'.store.objects[id] == s.store.objects[id]
            && s'.sending == s.sending && s'.named == s.named && s'.issues == s.issues && s.now <= s'.now
  {
  }

  lemma BackedAsBefore(s: State, s': State, id: ChallengeId)
    requires id in s.store.objects && ChallengeBacked(id, s.store.objects[id], s)
    requires id in s'.store.objects && s'.store.objects[id] == s.store.objects[id]
    requires s'.sending == s.sending && s'.named == s.named && s'.issues == s.issues && s.now <= s'.now
    requires forall x :: x in s.created ==> x in s'.created && s'.created[x] == s.created[x]
    ensures ChallengeBacked(id, s'.store.objects[id], s')
  {
    var c := s.store.objects[id];
    if c.password.Some? {
      var k :| 0 <= k < |s.issues| && FromIssue(s.issues[k], id, c.password.value, s.now)
            && IsLatest(s.issues, k) && (SendingOn(s, id) || c.customer.value.id == s.issues[k].customer);
      assert FromIssue(s'.issues[k], id, c.password.value, s'.now);
    }
  }

  lemma BackedWhenSent(s: State, on: ChallengeId, customer: Customer, otp: string, id: ChallengeId)
    requires Apply(s, SendOtp(on, customer, otp)).Some?
    requires id in s.store.objects && ChallengeBacked(id, s.store.objects[id], s)
    ensures var s' := Apply(s, SendOtp(on, customer, otp)).value; ChallengeBacked(id, s'.store.objects[id], s')
  {
    var s', c := Apply(s, SendOtp(on, customer, otp)).value, s.store.objects[id];
    if c.password.Some? {
      var k :| 0 <= k < |s.issues| && FromIssue(s.issues[k], id, c.password.value, s.now)
            && IsLatest(s.issues, k) && (SendingOn(s, id) || c.customer.value.id == s.issues[k].customer);
      assert FromIssue(s'.issues[k], id, s'.store.objects[id].password.value, s'.now);
    }
  }

  lemma BackedWhenFinished(s: State, id: ChallengeId)
    requires Apply(s, FinishSend).Some?
    requires id in s.store.objects && ChallengeBacked(id, s.store.objects[id], s)
    ensures var s' := Apply(s, FinishSend).value; ChallengeBacked(id, s'.store.objects[id], s')
  {
    var s', c, n := Apply(s, FinishSend).value, s.store.objects[id], |s.issues|;
    if s.sending.value.id == id {
      assert FromIssue(s'.issues[n], id, s'.store.objects[id].password.value, s'.now);
    } else if c.password.Some? {
      var k :| 0 <= k < n && FromIssue(s.issues[k], id, c.password.value, s.now)
            && IsLatest(s.issues, k) && (SendingOn(s, id) || c.customer.value.id == s.issues[k].customer);
      assert s'.issues[k] == s.issues[k];
    }
  }

  lemma MintsStayBacked(s: State, e: Event)
    requires Inv(s) && Apply(s, e).Some?
    requires forall m: Mint :: MintBacked(m, s) ==> MintBacked(m, Apply(s, e).value)
    ensures MintsBacked(Apply(s, e).value)
  {
    var s' := Apply(s, e).value;
    if e.Step? && s.handlers[e.index].Verify? && s.handlers[e.index].verify.Copied? {
      NewMintBacked(s, e.index, e.code);
    } else {
      CodesStay(s, e);
    }
    forall k | 0 <= k < |s.mints|
      ensures MintBacked(s.mints[k], s')
    {
      assert MintBacked(s.mints[k], s);
    }
  }

  lemma NewMintBacked(s: State, i: nat, code: CodeId)
    requires i < |s.handlers| && HandlerBacked(s.handlers[i], s)
    requires s.handlers[i].Verify? && s.handlers[i].verify.Copied?
    requires StepVerify(s, i, code).Some?
    ensures var s' := StepVerify(s, i, code).value;
            |s'.mints| == |s.mints| + 1 && s.mints <= s'.mints && MintBacked(s'.mints[|s.mints|], s')
  {
  }

  lemma HandlersStayBacked(s: State, e: Event)
    requires Inv(s) && Apply(s, e).Some?
    requires forall h: Handler :: HandlerBacked(h, s) ==> HandlerBacked(h, Apply(s, e).value)
    ensures HandlersBacked(Apply(s, e).value)
  {
    var s' := Apply(s, e).value;
    HandlerFrame(s, e);
    forall i | 0 <= i < |s'.handlers|
      ensures HandlerBacked(s'.handlers[i], s')
    {
      if i < |s.handlers| {
        assert HandlerBacked(s.handlers[i], s);
      }
      if e.Step? && e.index == i {
        HandlerStaysBacked(s, i, e.code);
      }
    }
  }

  // The handler that steps.
  lemma HandlerStaysBacked(s: State, i: nat, code: CodeId)
    requires ChallengesBacked(s) && CodesMinted(s) && i < |s.handlers| && HandlerBacked(s.handlers[i], s)
    requires Apply(s, Step(i, code)).Some?
    ensures var s' := Apply(s, Step(i, code)).value; HandlerBacked(s'.handlers[i], s')
  {
    var h, s' := s.handlers[i], Apply(s, Step(i, code)).value;
    if h.Verify? && h.verify.Holding? && s'.handlers[i].verify.Checked? {
      CheckedWasSent(s, h.challenge, h.otp);
    } else if h.Verify? && h.verify.Checked? {
      assert ChallengeBacked(h.challenge, s.store.objects[h.challenge], s);
    }
  }

  // An accepted password was attached to the challenge, and for the customer on it unless the
  // customer is just being replaced.
  lemma CheckedWasSent(s: State, id: ChallengeId, otp: string)
    requires ChallengesBacked(s) && id in s.store.objects && OtpAccepted(s.store.objects[id], otp, s.now)
    ensures PasswordSent(s.issues, id, otp, s.now)
    ensures !SendingOn(s, id) ==> OtpSent(s.issues, id, s.store.objects[id].customer.value.id, otp, s.now)
  {
    var c := s.store.objects[id];
    assert ChallengeBacked(id, c, s);
    var k :| 0 <= k < |s.issues| && FromIssue(s.issues[k], id, c.password.value, s.now)
          && IsLatest(s.issues, k) && (SendingOn(s, id) || c.customer.value.id == s.issues[k].customer);
    assert SentAt(s.issues[k], id, otp, s.now);
  }

  lemma TokensStayBacked(s: State, e: Event)
    requires Inv(s) && Apply(s, e).Some?
    requires forall t: Token :: TokenBacked(t, s) ==> TokenBacked(t, Apply(s, e).value)
    ensures TokensBacked(Apply(s, e).value)
  {
    var s' := Apply(s, e).value;
    if e.Step? && HoldsRecord(s.handlers[e.index]) {
      NewTokenBacked(s, e.index);
    } else {
      TokensStay(s, e);
    }
    forall k | 0 <= k < |s.tokens|
      ensures TokenBacked(s.tokens[k], s')
    {
      assert TokenBacked(s.tokens[k], s);
    }
  }

  lemma TokensStay(s: State, e: Event)
    requires Apply(s, e).Some? && (e.Step? ==> !HoldsRecord(s.handlers[e.index]))
    ensures Apply(s, e).value.tokens == s.tokens
  {
  }

  lemma NewTokenBacked(s: State, i: nat)
    requires i < |s.handlers| && HoldsRecord(s.handlers[i]) && HandlerBacked(s.handlers[i], s) && StepRedeem(s, i).Some?
    ensures var s' := StepRedeem(s, i).value;
            s'.tokens == s.tokens
            || (|s'.tokens| == |s.tokens| + 1 && s.tokens <= s'.tokens && TokenBacked(s'.tokens[|s.tokens|], s'))
  {
  }

  lemma CodesStayMinted(s: State, e: Event)
    requires Inv(s) && Apply(s, e).Some?
    ensures CodesMinted(Apply(s, e).value)
  {
    var s' := Apply(s, e).value;
    if e.Step? && s.handlers[e.index].Verify? && s.handlers[e.index].verify.Copied? {
      MintedAfresh(s, e.index, e.code);
    } else {
      StepGrows(s, e);
      CodesStay(s, e);
      SameMints(s, s');
    }
  }

  lemma CodesStay(s: State, e: Event)
    requires Apply(s, e).Some?
    requires e.Step? && s.handlers[e.index].Verify? ==> !s.handlers[e.index].verify.Copied?
    ensures Apply(s, e).value.mints == s.mints
    ensures Apply(s, e).value.store.codes.Keys == s.store.codes.Keys
  {
  }

  lemma SameMints(s: State, s': State)
    requires CodesMinted(s) && Grows(s, s') && s'.mints == s.mints && s'.store.codes.Keys == s.store.codes.Keys
    ensures CodesMinted(s')
  {
    assert forall code :: code in s'.store.codes ==> code in s.store.codes;
  }

  // A new code is in no earlier mint, since every mint's code is in the store.
  lemma MintedAfresh(s: State, i: nat, code: CodeId)
    requires MintsBacked(s) && CodesMinted(s)
    requires i < |s.handlers| && s.handlers[i].Verify? && s.handlers[i].verify.Copied?
    requires StepVerify(s, i, code).Some?
    ensures CodesMinted(StepVerify(s, i, code).value)
  {
    var s', n := StepVerify(s, i, code).value, |s.mints|;
    forall k | 0 <= k < n
      ensures s'.mints[k] == s.mints[k] && s.mints[k].code != code
    {
      assert MintBacked(s.mints[k], s);
    }
    assert s'.mints[n].code == code;
    forall x | x in s'.store.codes
      ensures WasMinted(s'.mints, x)
    {
      if x != code {
        var k :| 0 <= k < n && s.mints[k].code == x;
        assert s'.mints[k].code == x;
      }
    }
  }

  lemma RedeemedStaysOnce(s: State, e: Event)
    requires Inv(s) && Apply(s, e).Some?
    ensures RedeemedOnce(Apply(s, e).value)
  {
    var s' := Apply(s, e).value;
    if e.Step? {
      StepRedeemsOnce(s, e.index, e.code);
    } else if e.Arrive? {
      assert !HoldsRecord(s'.handlers[|s.handlers|]);
      assert forall j :: 0 <= j < |s.handlers| ==> s'.handlers[j] == s.handlers[j];
    }
  }

  lemma StepRedeemsOnce(s: State, i: nat, code: CodeId)
    requires Inv(s) && Apply(s, Step(i, code)).Some?
    ensures RedeemedOnce(Apply(s, Step(i, code)).value)
  {
    var h, s' := s.handlers[i], Apply(s, Step(i, code)).value;
    HandlerFrame(s, Step(i, code));
    RecordTaken(s, i, code);
    if HoldsRecord(s'.handlers[i]) {
      ConsumedOnce(s, h.code);
      TakenOnce(s, s', i);
    } else if s'.tokens != s.tokens {
      IssuedOnce(s, i, code);
    }
  }

  // A handler that comes to hold a record found its code unused.
  lemma RecordTaken(s: State, i: nat, code: CodeId)
    requires i < |s.handlers| && Apply(s, Step(i, code)).Some?
    ensures var s' := Apply(s, Step(i, code)).value;
            && (s'.tokens != s.tokens ==> HoldsRecord(s.handlers[i]))
            && (HoldsRecord(s'.handlers[i]) ==>
                  && s'.tokens == s.tokens && s.handlers[i].Redeem? && s'.handlers[i].code == s.handlers[i].code
                  && s.handlers[i].code in s.store.codes && !s.store.codes[s.handlers[i].code].used)
  {
  }

  lemma TakenOnce(s: State, s': State, i: nat)
    requires RedeemedOnce(s) && i < |s.handlers| == |s'.handlers|
    requires s'.tokens == s.tokens && HoldsRecord(s'.handlers[i])
    requires forall j :: 0 <= j < |s.handlers| && j != i ==> s'.handlers[j] == s.handlers[j]
    requires forall j :: 0 <= j < |s.handlers| && HoldsRecord(s.handlers[j]) ==>
         s.handlers[j].code != s'.handlers[i].code
    requires forall k :: 0 <= k < |s.tokens| ==> s.tokens[k].code != s'.handlers[i].code
    ensures RedeemedOnce(s')
  {
  }

  // A code that was unused until now is in nobody's hands.
  lemma ConsumedOnce(s: State, code: CodeId)
    requires HandlersBacked(s) && TokensBacked(s) && code in s.store.codes && !s.store.codes[code].used
    ensures forall j :: 0 <= j < |s.handlers| && HoldsRecord(s.handlers[j]) ==> s.handlers[j].code != code
    ensures forall k :: 0 <= k < |s.tokens| ==> s.tokens[k].code != code
  {
    forall j | 0 <= j < |s.handlers| && HoldsRecord(s.handlers[j])
      ensures s.handlers[j].code != code
    {
      assert HandlerBacked(s.handlers[j], s);
    }
    forall k | 0 <= k < |s.tokens|
      ensures s.tokens[k].code != code
    {
      assert TokenBacked(s.tokens[k], s);
    }
  }

  // A token takes the code over from the handler that held its record.
  lemma IssuedOnce(s: State, i: nat, code: CodeId)
    requires RedeemedOnce(s) && Apply(s, Step(i, code)).Some? && HoldsRecord(s.handlers[i])
    ensures RedeemedOnce(Apply(s, Step(i, code)).value)
  {
    var h, s' := s.handlers[i], Apply(s, Step(i, code)).value;
    forall j | 0 <= j < |s.handlers| && HoldsRecord(s'.handlers[j])
      ensures j != i && s'.handlers[j] == s.handlers[j] && s'.handlers[j].code != h.code
    {
      assert j < i ==> !SameCode(s.handlers[j], s.handlers[i]);
      assert i < j ==> !SameCode(s.handlers[i], s.handlers[j]);
    }
  }
}
