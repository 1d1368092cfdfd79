/**
 What a token proves about its login, and how many codes one login can give, over every
 interleaving of the handlers.
 */
module AuthTokens {
  import opened Wrappers
  import opened AuthCodes
  import opened AuthProtocol

  // ---------- In every run ----------

  // The token's code was minted for a challenge of the same client and redirect URI (section
  // 4.1.3 of RFC 6749) to which the token's customer had been attached. The challenge was looked up
  // within five minutes of its creation, then a password attached to it checked within five minutes
  // of its attachment, and the code redeemed within sixty seconds.
  predicate BackedBy(t: Token, m: Mint, s: State) {
    && m.code == t.code && m.challenge in s.store.objects
    && s.store.objects[m.challenge].client == t.client
    && s.store.objects[m.challenge].redirect == t.redirect
    && (m.challenge, t.customer) in s.named
    && FoundInTime(s, m.challenge, m.foundAt) && m.foundAt <= m.checkedAt
    && PasswordSent(s.issues, m.challenge, m.otp, m.checkedAt)
    && m.checkedAt <= m.at <= t.redeemedAt <= m.at + 60.0
  }

  predicate Backed(t: Token, s: State) {
    exists k :: 0 <= k < |s.mints| && BackedBy(t, s.mints[k], s)
  }

  // Over any interleaving of handlers and any passing of time, every token is backed and no code
  // yields two.
  lemma TokensAreBacked(events: seq<Event>)
    requires StateAfter(events).Some?
    ensures var s := StateAfter(events).value;
            && (forall k :: 0 <= k < |s.tokens| ==> Backed(s.tokens[k], s))
            && (forall j, k :: 0 <= j < k < |s.tokens| ==> s.tokens[j].code != s.tokens[k].code)
  {
    RunsKeepInv(events);
    var s := StateAfter(events).value;
    forall k | 0 <= k < |s.tokens|
      ensures Backed(s.tokens[k], s)
    {
      var m := MintOf(s, k);
    }
  }

  lemma MintOf(s: State, k: nat) returns (m: nat)
    requires Inv(s) && k < |s.tokens|
    ensures m < |s.mints| && BackedBy(s.tokens[k], s.mints[m], s)
  {
    assert TokenBacked(s.tokens[k], s);
    assert WasMinted(s.mints, s.tokens[k].code);
    m :| 0 <= m < |s.mints| && s.mints[m].code == s.tokens[k].code;
    assert MintBacked(s.mints[m], s);
  }

  // ---------- Whose password was checked ----------

  // The token's own customer is the one the checked password had been attached for.
  predicate EarnedBy(t: Token, m: Mint, s: State) {
    BackedBy(t, m, s) && OtpSent(s.issues, m.challenge, t.customer, m.otp, m.checkedAt)
  }

  predicate Earned(t: Token, s: State) {
    exists k :: 0 <= k < |s.mints| && EarnedBy(t, s.mints[k], s)
  }

  // Between its check and its copy of the customer.
  predicate Checking(h: Handler) {
    h.Verify? && h.verify.Checked?
  }

  // Handler i is between its check and its copy while its challenge's customer is being replaced
  // by one for whom the checked password had not been attached.
  predicate Disturbed(s: State, i: nat)
    requires i < |s.handlers|
  {
    var h := s.handlers[i];
    && Checking(h) && SendingOn(s, h.challenge)
    && !OtpSent(s.issues, h.challenge, s.sending.value.customer, h.otp, h.verify.at)
  }

  predicate Undisturbed(s: State) {
    forall i :: 0 <= i < |s.handlers| ==> !Disturbed(s, i)
  }

  predicate NeverDisturbed(events: seq<Event>)
    requires StateAfter(events).Some?
  {
    Undisturbed(StateAfter(events).value) && (events == [] || NeverDisturbed(events[..|events| - 1]))
  }

  predicate HandlerEarns(h: Handler, s: State) {
    && (Checking(h) ==>
          && h.challenge in s.store.objects && s.store.objects[h.challenge].customer.Some?
          && OtpSent(s.issues, h.challenge, s.store.objects[h.challenge].customer.value.id, h.otp, h.verify.at))
    && (h.Verify? && h.verify.Copied? ==> OtpSent(s.issues, h.challenge, h.verify.customer, h.otp, h.verify.at))
  }

  predicate MintEarned(m: Mint, s: State) {
    m.code in s.store.codes && OtpSent(s.issues, m.challenge, s.store.codes[m.code].customer, m.otp, m.checkedAt)
  }

  predicate AllEarn(s: State) {
    && (forall i :: 0 <= i < |s.handlers| ==> HandlerEarns(s.handlers[i], s))
    && forall k :: 0 <= k < |s.mints| ==> MintEarned(s.mints[k], s)
  }

  lemma OtpStaysSent(issues: seq<Issue>, more: seq<Issue>, id: ChallengeId, customer: Name, otp: string, at: real)
    requires issues <= more && OtpSent(issues, id, customer, otp, at)
    ensures OtpSent(more, id, customer, otp, at)
  {
    var k :| 0 <= k < |issues| && SentAt(issues[k], id, otp, at) && issues[k].customer == customer;
    assert more[k] == issues[k];
  }

  lemma MintsStayEarned(s: State, e: Event)
    requires AllEarn(s) && Apply(s, e).Some?
    ensures forall k :: 0 <= k < |Apply(s, e).value.mints| ==> MintEarned(Apply(s, e).value.mints[k], Apply(s, e).value)
  {
    var s' := Apply(s, e).value;
    StepGrows(s, e);
    forall k | 0 <= k < |s'.mints|
      ensures MintEarned(s'.mints[k], s')
    {
      if k < |s.mints| {
        assert s'.mints[k] == s.mints[k] && MintEarned(s.mints[k], s);
        var m := s.mints[k];
        OtpStaysSent(s.issues, s'.issues, m.challenge, s.store.codes[m.code].customer, m.otp, m.checkedAt);
      } else {
        assert HandlerEarns(s.handlers[e.index], s);
      }
    }
  }

  lemma HandlersStayEarning(s: State, e: Event)
    requires Inv(s) && AllEarn(s) && Apply(s, e).Some? && Undisturbed(Apply(s, e).value)
    ensures var s' := Apply(s, e).value; forall i :: 0 <= i < |s'.handlers| ==> HandlerEarns(s'.handlers[i], s')
  {
    var s' := Apply(s, e).value;
    ChallengesStayBacked(s, e);
    HandlerFrame(s, e);
    forall i | 0 <= i < |s'.handlers|
      ensures HandlerEarns(s'.handlers[i], s')
    {
      var h := s'.handlers[i];
      if Checking(h) && SendingOn(s', h.challenge) {
        KnownChallenge(s, e, i);
        UndisturbedEarns(s', i);
      } else if e.Step? && e.index == i {
        SteppingEarns(s, i, e.code);
      } else if i < |s.handlers| {
        KeepsEarning(s, e, i);
      }
    }
  }

  lemma KeepsEarning(s: State, e: Event, i: nat)
    requires AllEarn(s) && Apply(s, e).Some? && i < |s.handlers|
    requires Checking(s.handlers[i]) ==> !SendingOn(Apply(s, e).value, s.handlers[i].challenge)
    ensures HandlerEarns(s.handlers[i], Apply(s, e).value)
  {
    assert HandlerEarns(s.handlers[i], s);
    WaitingEarns(s, e, s.handlers[i]);
  }

  // A customer being attached under a handler that is not disturbed is one the checked password
  // had been attached for.
  lemma UndisturbedEarns(s: State, i: nat)
    requires ChallengesBacked(s) && Undisturbed(s) && i < |s.handlers|
    requires Checking(s.handlers[i]) && SendingOn(s, s.handlers[i].challenge)
    requires s.handlers[i].challenge in s.store.objects
    ensures HandlerEarns(s.handlers[i], s)
  {
    assert !Disturbed(s, i);
    assert ChallengeBacked(s.handlers[i].challenge, s.store.objects[s.handlers[i].challenge], s);
  }

  lemma KnownChallenge(s: State, e: Event, i: nat)
    requires AllEarn(s) && Apply(s, e).Some?
    requires i < |Apply(s, e).value.handlers| && Checking(Apply(s, e).value.handlers[i])
    ensures Apply(s, e).value.handlers[i].challenge in Apply(s, e).value.store.objects
  {
    var h := Apply(s, e).value.handlers[i];
    StepGrows(s, e);
    if i < |s.handlers| && h == s.handlers[i] {
      assert HandlerEarns(h, s);
    }
  }

  // A handler that does not step, on a challenge that is left alone.
  lemma WaitingEarns(s: State, e: Event, h: Handler)
    requires HandlerEarns(h, s) && Apply(s, e).Some?
    requires Checking(h) ==> !SendingOn(Apply(s, e).value, h.challenge)
    ensures HandlerEarns(h, Apply(s, e).value)
  {
    var s' := Apply(s, e).value;
    StepGrows(s, e);
    if Checking(h) {
      OtpStaysSent(s.issues, s'.issues, h.challenge, s.store.objects[h.challenge].customer.value.id, h.otp,
                   h.verify.at);
    } else if h.Verify? && h.verify.Copied? {
      OtpStaysSent(s.issues, s'.issues, h.challenge, h.verify.customer, h.otp, h.verify.at);
    }
  }

  lemma SteppingEarns(s: State, i: nat, code: CodeId)
    requires Inv(s) && i < |s.handlers| && HandlerEarns(s.handlers[i], s) && Apply(s, Step(i, code)).Some?
    requires var h' := Apply(s, Step(i, code)).value.handlers[i]; Checking(h') ==> !SendingOn(s, h'.challenge)
    ensures var s' := Apply(s, Step(i, code)).value; HandlerEarns(s'.handlers[i], s')
  {
    var h, s' := s.handlers[i], Apply(s, Step(i, code)).value;
    if Checking(s'.handlers[i]) {
      CheckedWasSent(s, h.challenge, h.otp);
    }
  }

  lemma {:induction false} RunsEarn(events: seq<Event>)
    requires StateAfter(events).Some? && NeverDisturbed(events)
    ensures AllEarn(StateAfter(events).value)
  {
    if events != [] {
      var before, e := events[..|events| - 1], events[|events| - 1];
      RunsEarn(before);
      RunsKeepInv(before);
      MintsStayEarned(StateAfter(before).value, e);
      HandlersStayEarning(StateAfter(before).value, e);
    }
  }

  // While no handler is disturbed, every token is earned by its own customer's password.
  lemma TokensAreEarned(events: seq<Event>)
    requires StateAfter(events).Some? && NeverDisturbed(events)
    ensures var s := StateAfter(events).value;
            forall k :: 0 <= k < |s.tokens| ==> Earned(s.tokens[k], s)
  {
    RunsKeepInv(events);
    RunsEarn(events);
    var s := StateAfter(events).value;
    forall k | 0 <= k < |s.tokens|
      ensures Earned(s.tokens[k], s)
    {
      var m := MintOf(s, k);
      assert TokenBacked(s.tokens[k], s) && MintEarned(s.mints[m], s);
      assert EarnedBy(s.tokens[k], s.mints[m], s);
    }
  }

  // ---------- What an attach in between can do ----------

  // Handler i copies the customer, the attach ends a second later, and the code minted is
  // redeemed at once.
  function Finish(s: State, i: nat, code: CodeId): seq<Event>
    requires i < |s.handlers| && Checking(s.handlers[i]) && s.handlers[i].challenge in s.store.objects
  {
    [Step(i, code), Tick(1.0), FinishSend] + Redemption(s.store.objects[s.handlers[i].challenge], i, |s.handlers|, code)
  }

  // Handler i mints the code, and a request n redeems it.
  function Redemption(c: Challenge, i: nat, n: nat, code: CodeId): seq<Event> {
    [Step(i, code), Arrive(Redeem(code, c.client, c.redirect, true, Sent)), Step(n, code), Step(n, code)]
  }

  predicate Overtaken(s: State, i: nat) {
    && i < |s.handlers| && Checking(s.handlers[i]) && SendingOn(s, s.handlers[i].challenge)
    && s.handlers[i].challenge in s.store.objects
    && var c := s.store.objects[s.handlers[i].challenge];
       c.customer.Some? && c.customer.value.id == s.sending.value.customer
  }

  // Once the customer is copied and the attach has ended.
  function Attached(s: State, i: nat): State
    requires Overtaken(s, i)
  {
    var h, Sending(id, customer, otp), now := s.handlers[i], s.sending.value, s.now + 1.0;
    s.(now := now, store := WritePassword(s.store, id, otp, now), sending := None,
       handlers := s.handlers[i := h.(verify := Copied(customer, h.verify.found, h.verify.at))],
       issues := s.issues + [Issue(id, customer, otp, now)])
  }

  // Once the code is redeemed.
  function Finished(s: State, i: nat, code: CodeId): State
    requires Overtaken(s, i)
  {
    var a, h, customer := Attached(s, i), s.handlers[i], s.sending.value.customer;
    var c := s.store.objects[h.challenge];
    a.(store := a.store.(
         codes := a.store.codes[code := Code(c.client, c.redirect, customer, a.now, a.now + AUTH_CODE_TTL, true)],
         refresh := a.store.refresh + [Refresh(c.client, customer)]),
       handlers := s.handlers[i := h.(verify := Minted(h.verify.found))]
                   + [Redeem(code, c.client, c.redirect, true, Answered)],
       mints := s.mints + [Mint(code, h.challenge, h.otp, h.verify.found, h.verify.at, a.now)],
       tokens := s.tokens + [Token(code, c.client, c.redirect, customer, a.now)])
  }

  lemma AttachLeads(events: seq<Event>, i: nat, code: CodeId)
    requires StateAfter(events).Some? && Overtaken(StateAfter(events).value, i)
    ensures var s := StateAfter(events).value;
            StateAfter(events + [Step(i, code), Tick(1.0), FinishSend]) == Some(Attached(s, i))
  {
    var s := StateAfter(events).value;
    var s1 := Apply(s, Step(i, code)).value;
    var s2 := Apply(s1, Tick(1.0)).value;
    Leads(events, [Step(i, code), Tick(1.0), FinishSend], [s, s1, s2, Attached(s, i)]);
  }

  lemma RedemptionLeads(events: seq<Event>, s: State, i: nat, code: CodeId)
    requires Overtaken(s, i) && StateAfter(events) == Some(Attached(s, i)) && code !in s.store.codes
    ensures var c := s.store.objects[s.handlers[i].challenge];
            StateAfter(events + Redemption(c, i, |s.handlers|, code)) == Some(Finished(s, i, code))
  {
    var more := Redemption(s.store.objects[s.handlers[i].challenge], i, |s.handlers|, code);
    var s1 := Apply(Attached(s, i), more[0]).value;
    var s2 := Apply(s1, more[1]).value;
    var s3 := Apply(s2, more[2]).value;
    var s4 := Apply(s3, more[3]).value;
    SameState(s4, Finished(s, i, code));
    Leads(events, more, [Attached(s, i), s1, s2, s3, s4]);
  }

  lemma FinishLeads(events: seq<Event>, i: nat, code: CodeId)
    requires StateAfter(events).Some? && Overtaken(StateAfter(events).value, i)
    requires code !in StateAfter(events).value.store.codes
    ensures var s := StateAfter(events).value;
            StateAfter(events + Finish(s, i, code)) == Some(Finished(s, i, code))
  {
    var s, first := StateAfter(events).value, [Step(i, code), Tick(1.0), FinishSend];
    var rest := Redemption(s.store.objects[s.handlers[i].challenge], i, |s.handlers|, code);
    AttachLeads(events, i, code);
    RedemptionLeads(events + first, s, i, code);
    assert events + (first + rest) == (events + first) + rest;
  }

  // The condition is exact. In whatever run an attach overtakes a handler that has passed its
  // check, the handler can go on to mint a code for the customer being attached, and the token
  // it yields is earned if and only if the handler is not disturbed.
  lemma DisturbanceIsExact(events: seq<Event>, i: nat, code: CodeId)
    requires StateAfter(events).Some?
    requires var s := StateAfter(events).value;
             && i < |s.handlers| && Checking(s.handlers[i]) && SendingOn(s, s.handlers[i].challenge)
             && code !in s.store.codes
    ensures var s := StateAfter(events).value;
            && s.handlers[i].challenge in s.store.objects
            && StateAfter(events + Finish(s, i, code)).Some?
            && var s' := StateAfter(events + Finish(s, i, code)).value;
               && s'.tokens != []
               && var t := s'.tokens[|s'.tokens| - 1];
                  && t.code == code && t.customer == s.sending.value.customer
                  && (Earned(t, s') <==> !Disturbed(s, i))
  {
    var s := StateAfter(events).value;
    var h := s.handlers[i];
    RunsKeepInv(events);
    assert HandlerBacked(h, s) && ChallengeBacked(h.challenge, s.store.objects[h.challenge], s);
    FinishLeads(events, i, code);
    var s' := Finished(s, i, code);
    var n := |s.mints|;
    assert s'.mints[n] == Mint(code, h.challenge, h.otp, h.verify.found, h.verify.at, s.now + 1.0);
    forall k | 0 <= k < n
      ensures s'.mints[k].code != code
    {
      assert MintBacked(s.mints[k], s) && s'.mints[k] == s.mints[k];
    }
    LaterIssue(s.issues, s'.issues, h.challenge, s.sending.value.customer, h.otp, h.verify.at);
    SentStays(s.issues, s'.issues, h.challenge, h.otp, h.verify.at);
    assert EarnedBy(s'.tokens[|s.tokens|], s'.mints[n], s') <==> !Disturbed(s, i);
  }

  // A password attached after the check is not the one that was checked.
  lemma LaterIssue(issues: seq<Issue>, more: seq<Issue>, id: ChallengeId, customer: Name, otp: string, at: real)
    requires issues <= more && |more| == |issues| + 1 && at < more[|issues|].at
    ensures OtpSent(more, id, customer, otp, at) <==> OtpSent(issues, id, customer, otp, at)
  {
    if OtpSent(issues, id, customer, otp, at) {
      OtpStaysSent(issues, more, id, customer, otp, at);
    }
    assert forall k :: 0 <= k < |issues| ==> issues[k] == more[k];
  }

  const OpenLogin := [Authorize(0, "app", "uri"), SendOtp(0, Customer("ann", "555"), "111111"), FinishSend]

  const LoginOpen := State(0.0, Store(map[0 := Challenge("app", "uri", CHALLENGE_TTL, Some(Customer("ann", "555")),
                                                         Some(Password("111111", OTP_TTL)))], {0}, map[], []),
                           None, [], {(0, "ann")}, [Issue(0, "ann", "111111", 0.0)], [], [], map[0 := 0.0])

  lemma LoginOpens()
    ensures StateAfter(OpenLogin) == Some(LoginOpen)
  {
    var s1 := Apply(Initial, OpenLogin[0]).value;
    var s2 := Apply(s1, OpenLogin[1]).value;
    var s3 := Apply(s2, OpenLogin[2]).value;
    SameState(s3, LoginOpen);
    Leads([], OpenLogin, [Initial, s1, s2, LoginOpen]);
    assert [] + OpenLogin == OpenLogin;
  }

  // States agree when their collections hold the same elements.
  lemma SameState(a: State, b: State)
    requires a.now == b.now && a.sending == b.sending && a.handlers == b.handlers && a.named == b.named
    requires a.issues == b.issues && a.mints == b.mints && a.tokens == b.tokens && a.created == b.created
    requires a.store.objects == b.store.objects && a.store.listed == b.store.listed
    requires a.store.codes == b.store.codes && a.store.refresh == b.store.refresh
    ensures a == b
  {
  }

  // A request with the right password arrives and looks the challenge up.
  lemma LooksUp(s: State, h: Handler)
    requires h.Verify? && h.verify == Arrived && s.sending.None? && Available(s.store, h.challenge, s.now)
    ensures Apply(s, Arrive(h)) == Some(s.(handlers := s.handlers + [h]))
    ensures Apply(s.(handlers := s.handlers + [h]), Step(|s.handlers|, 0))
         == Some(s.(handlers := s.handlers + [h.(verify := Holding(s.now))]))
  {
    var held := h.(verify := Holding(s.now));
    assert (s.handlers + [h])[|s.handlers| := held] == s.handlers + [held];
  }

  lemma BobWasNotSent(s: State)
    requires s.issues == LoginOpen.issues
    ensures !OtpSent(s.issues, 0, "bob", "111111", 0.0)
  {
    assert s.issues[0].customer == "ann" && "ann"[0] != "bob"[0];
  }

  const AnnChecks := [Arrive(Verify(0, "111111", Arrived)), Step(0, 0), Step(0, 0)]

  const AnnChecked := LoginOpen.(handlers := [Verify(0, "111111", Checked(0.0, 0.0))])

  lemma AnnIsChecked()
    ensures StateAfter(OpenLogin + AnnChecks) == Some(AnnChecked)
  {
    var h := Verify(0, "111111", Arrived);
    var s := LoginOpen;
    LoginOpens();
    LooksUp(s, h);
    var s2 := s.(handlers := [] + [h.(verify := Holding(s.now))]);
    SameState(Apply(s2, Step(0, 0)).value, AnnChecked);
    Leads(OpenLogin, AnnChecks, [s, s.(handlers := [] + [h]), s2, AnnChecked]);
  }

  // Such a run exists: Ann's password is checked, Bob is attached to the same challenge, and Bob
  // gets the token.
  lemma DisturbanceIsReached() returns (events: seq<Event>)
    ensures StateAfter(events).Some?
    ensures var s := StateAfter(events).value;
            s.tokens != [] && s.tokens[|s.tokens| - 1].customer == "bob" && !Earned(s.tokens[|s.tokens| - 1], s)
  {
    var attach := SendOtp(0, Customer("bob", "556"), "222222");
    var s := Apply(AnnChecked, attach).value;
    var before := OpenLogin + AnnChecks;
    AnnIsChecked();
    Leads(before, [attach], [AnnChecked, s]);
    BobWasNotSent(s);
    DisturbanceIsExact(before + [attach], 0, 0);
    events := before + [attach] + Finish(s, 0, 0);
  }
}
