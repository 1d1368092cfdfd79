/** When each step of a login and of a redemption succeeds, said of what happened before it. */
module AuthOutcomes {
  import opened Wrappers
  import opened AuthCodes
  import opened AuthProtocol

  // A handler that has looked its challenge up did so within 300 seconds of its creation.
  lemma LookUpsAreInTime(events: seq<Event>, i: nat)
    requires StateAfter(events).Some? && i < |StateAfter(events).value.handlers|
    requires HasLookedUp(StateAfter(events).value.handlers[i])
    ensures var s := StateAfter(events).value;
            var h := s.handlers[i];
            h.challenge in s.created && s.created[h.challenge] <= h.verify.found <= s.created[h.challenge] + 300.0
  {
    RunsKeepInv(events);
    assert HandlerBacked(StateAfter(events).value.handlers[i], StateAfter(events).value);
  }

  // A look-up finds exactly a challenge that is still listed and at most 300 seconds old; one that
  // is not found is not listed afterwards.
  lemma LookUpExactly(events: seq<Event>, i: nat, code: CodeId)
    requires StateAfter(events).Some? && i < |StateAfter(events).value.handlers|
    requires var s := StateAfter(events).value;
             s.sending.None? && s.handlers[i].Verify? && s.handlers[i].verify.Arrived?
    ensures var s := StateAfter(events).value;
            var id, next := s.handlers[i].challenge, Apply(s, Step(i, code));
            && next.Some?
            && var s' := next.value;
               && (s'.handlers[i].verify == Holding(s.now)
                   <==> id in s.store.listed && id in s.created && s.now <= s.created[id] + 300.0)
               && (s'.handlers[i].verify != Holding(s.now) ==>
                     s'.handlers[i].verify == Closed && id !in s'.store.listed)
               && s'.store.listed - {id} == s.store.listed - {id}
               && (s'.handlers[i].verify == Holding(s.now) ==> s'.store == s.store)
  {
    RunsKeepInv(events);
    var s := StateAfter(events).value;
    var id := s.handlers[i].challenge;
    if id in s.store.objects {
      assert ChallengeBacked(id, s.store.objects[id], s);
    }
  }

  // The password attached last to the challenge is this one, attached no more than 300 seconds ago.
  predicate LatestSent(s: State, id: ChallengeId, otp: string) {
    exists k :: 0 <= k < |s.issues| && IsLatest(s.issues, k) && SentAt(s.issues[k], id, otp, s.now)
  }

  // While no attach is under way on it, the check passes exactly for the password attached last to
  // the challenge, no more than 300 seconds ago.
  lemma CheckExactly(events: seq<Event>, i: nat, code: CodeId)
    requires StateAfter(events).Some? && i < |StateAfter(events).value.handlers|
    requires var s := StateAfter(events).value;
             && s.handlers[i].Verify? && s.handlers[i].verify.Holding?
             && s.handlers[i].challenge in s.store.objects && !SendingOn(s, s.handlers[i].challenge)
    ensures var s := StateAfter(events).value;
            var h, next := s.handlers[i], Apply(s, Step(i, code));
            && next.Some? && next.value.store == s.store
            && (next.value.handlers[i].verify == Checked(h.verify.found, s.now)
                <==> LatestSent(s, h.challenge, h.otp))
            && (next.value.handlers[i].verify.Checked? || next.value.handlers[i].verify.Closed?)
  {
    RunsKeepInv(events);
    var s := StateAfter(events).value;
    var h := s.handlers[i];
    var c := s.store.objects[h.challenge];
    assert ChallengeBacked(h.challenge, c, s);
    if c.password.Some? {
      var k :| 0 <= k < |s.issues| && FromIssue(s.issues[k], h.challenge, c.password.value, s.now)
            && IsLatest(s.issues, k) && c.customer.value.id == s.issues[k].customer;
      assert OtpAccepted(c, h.otp, s.now) <==> SentAt(s.issues[k], h.challenge, h.otp, s.now);
      assert forall j :: 0 <= j < |s.issues| && IsLatest(s.issues, j) && s.issues[j].challenge == h.challenge ==>
        j == k;
    }
  }

  // While an attach holds the lock, only its own second write changes the store.
  lemma LockKeepsStore(s: State, e: Event)
    requires s.sending.Some? && Apply(s, e).Some? && e != FinishSend
    ensures Apply(s, e).value.store == s.store && Apply(s, e).value.sending == s.sending
  {
  }

  // A new challenge is listed, with its client and redirect URI, for 300 seconds; nothing else changes.
  lemma AuthorizeExactly(s: State, id: ChallengeId, client: Name, redirect: Name)
    requires Apply(s, Authorize(id, client, redirect)).Some?
    ensures var after := Apply(s, Authorize(id, client, redirect)).value.store;
            && after.listed == s.store.listed + {id} && after.codes == s.store.codes && after.refresh == s.store.refresh
            && after.objects == s.store.objects[id := Challenge(client, redirect, s.now + 300.0, None, None)]
  {
  }

  // A handler that has copied the customer mints a code for 60 seconds, bound to the challenge's
  // client and redirect URI; one that has minted takes its challenge off the list. Nothing else
  // changes in the store.
  lemma MintExactly(s: State, i: nat, code: CodeId)
    requires i < |s.handlers| && s.handlers[i].Verify? && s.handlers[i].verify.Copied? && Apply(s, Step(i, code)).Some?
    ensures s.handlers[i].challenge in s.store.objects
    ensures var h, c := s.handlers[i], s.store.objects[s.handlers[i].challenge];
            Apply(s, Step(i, code)).value.store
            == s.store.(codes := s.store.codes[code := Code(c.client, c.redirect, h.verify.customer, s.now,
                                                            s.now + 60.0, false)])
  {
  }

  lemma PopExactly(s: State, i: nat, code: CodeId)
    requires i < |s.handlers| && s.handlers[i].Verify? && s.handlers[i].verify.Minted? && s.sending.None?
    ensures Apply(s, Step(i, code)).Some?
    ensures Apply(s, Step(i, code)).value.handlers[i].verify == Closed
    ensures Apply(s, Step(i, code)).value.store
         == s.store.(listed := s.store.listed - {s.handlers[i].challenge})
  {
  }

  // An attach is possible exactly on a listed challenge, and its two writes are those of the store's
  // call: that challenge gets the customer and a password for 300 seconds, and nothing else changes.
  lemma AttachExactly(s: State, id: ChallengeId, customer: Customer, otp: string)
    requires s.sending.None? && s.store.listed <= s.store.objects.Keys
    ensures var begun := Apply(s, SendOtp(id, customer, otp));
            && (begun.Some? <==> id in s.store.listed)
            && (begun.None? ==> SetOtp(s.store, id, customer, otp, s.now) == s.store)
            && (begun.Some? ==>
                  && Apply(begun.value, FinishSend).Some?
                  && var after := Apply(begun.value, FinishSend).value.store;
                     && after == SetOtp(s.store, id, customer, otp, s.now)
                     && after.listed == s.store.listed && after.codes == s.store.codes
                     && after.objects.Keys == s.store.objects.Keys
                     && (forall x :: x in s.store.objects && x != id ==> after.objects[x] == s.store.objects[x])
                     && after.objects[id].customer == Some(customer)
                     && after.objects[id].password == Some(Password(otp, s.now + 300.0)))
  {
  }

  // A code is consumed exactly by a request of a known client, within 60 seconds of its mint, and
  // only once; it is then marked used.
  lemma ConsumeExactly(events: seq<Event>, i: nat, code: CodeId)
    requires StateAfter(events).Some? && i < |StateAfter(events).value.handlers|
    requires var s := StateAfter(events).value;
             s.sending.None? && s.handlers[i].Redeem? && s.handlers[i].redeem.Sent?
    ensures var s := StateAfter(events).value;
            var h, next := s.handlers[i], Apply(s, Step(i, code));
            && next.Some?
            && (next.value.handlers[i].redeem.Redeemed?
                <==> h.clientOk
                     && MintedSince(s, h.code, s.now - 60.0)
                     && h.code in s.store.codes && !s.store.codes[h.code].used)
            && (next.value.handlers[i].redeem.Redeemed? ==>
                  h.code in next.value.store.codes && next.value.store.codes[h.code].used)
            && (!next.value.handlers[i].redeem.Redeemed? ==>
                  next.value.handlers[i].redeem.Answered? && next.value.store == s.store)
  {
    RunsKeepInv(events);
    var s := StateAfter(events).value;
    CodeAge(s, s.handlers[i].code);
    ConsumeStep(s, i, code);
  }

  predicate MintedSince(s: State, code: CodeId, since: real) {
    exists k :: 0 <= k < |s.mints| && s.mints[k].code == code && since <= s.mints[k].at
  }

  lemma CodeAge(s: State, code: CodeId)
    requires MintsBacked(s) && CodesMinted(s)
    ensures MintedSince(s, code, s.now - 60.0) <==> code in s.store.codes && s.now <= s.store.codes[code].expiresAt
  {
    if code in s.store.codes {
      assert WasMinted(s.mints, code);
      var m :| 0 <= m < |s.mints| && s.mints[m].code == code;
      assert MintBacked(s.mints[m], s);
    }
    forall k | 0 <= k < |s.mints| && s.mints[k].code == code
      ensures code in s.store.codes && s.store.codes[code].expiresAt == s.mints[k].at + 60.0
    {
      assert MintBacked(s.mints[k], s);
    }
  }

  lemma ConsumeStep(s: State, i: nat, code: CodeId)
    requires i < |s.handlers| && s.sending.None? && s.handlers[i].Redeem? && s.handlers[i].redeem.Sent?
    ensures var h, next := s.handlers[i], Apply(s, Step(i, code));
            && next.Some?
            && (next.value.handlers[i].redeem.Redeemed? <==> h.clientOk && Redeemable(s.store, h.code, s.now))
            && (next.value.handlers[i].redeem.Redeemed? ==>
                  h.code in next.value.store.codes && next.value.store.codes[h.code].used)
            && (!next.value.handlers[i].redeem.Redeemed? ==>
                  next.value.handlers[i].redeem.Answered? && next.value.store == s.store)
  {
  }

  // A consumed code yields a token exactly when the request names the client and redirect URI of
  // the challenge it was minted for.
  lemma TokenExactly(events: seq<Event>, i: nat, code: CodeId)
    requires StateAfter(events).Some? && i < |StateAfter(events).value.handlers|
    requires var s := StateAfter(events).value; s.sending.None? && HoldsRecord(s.handlers[i])
    ensures var s := StateAfter(events).value;
            var h, next := s.handlers[i], Apply(s, Step(i, code));
            && next.Some? && next.value.handlers[i].redeem.Answered?
            && (next.value.tokens != s.tokens
                <==> MintedFor(s, h.code, h.client, h.redirect))
            && (next.value.tokens != s.tokens ==>
                  next.value.tokens
                  == s.tokens + [Token(h.code, h.client, h.redirect, h.redeem.record.customer, h.redeem.at)])
  {
    RunsKeepInv(events);
    var s := StateAfter(events).value;
    var h := s.handlers[i];
    assert HandlerBacked(h, s);
    CodeBinding(s, h.code, h.client, h.redirect);
    TokenStep(s, i, code);
  }

  predicate MintedFor(s: State, code: CodeId, client: Name, redirect: Name) {
    exists k :: 0 <= k < |s.mints| && s.mints[k].code == code && IsFor(s, s.mints[k].challenge, client, redirect)
  }

  predicate IsFor(s: State, id: ChallengeId, client: Name, redirect: Name) {
    && id in s.store.objects && s.store.objects[id].client == client && s.store.objects[id].redirect == redirect
  }

  lemma CodeBinding(s: State, code: CodeId, client: Name, redirect: Name)
    requires MintsBacked(s) && CodesMinted(s) && code in s.store.codes
    ensures MintedFor(s, code, client, redirect) <==> Bound(s.store.codes[code], client, redirect)
  {
    assert WasMinted(s.mints, code);
    var m :| 0 <= m < |s.mints| && s.mints[m].code == code;
    forall k | 0 <= k < |s.mints| && s.mints[k].code == code
      ensures IsFor(s, s.mints[k].challenge, client, redirect) <==> Bound(s.store.codes[code], client, redirect)
    {
      assert MintBacked(s.mints[k], s);
    }
  }

  lemma TokenStep(s: State, i: nat, code: CodeId)
    requires i < |s.handlers| && s.sending.None? && HoldsRecord(s.handlers[i])
    ensures var h, next := s.handlers[i], Apply(s, Step(i, code));
            && next.Some? && next.value.handlers[i].redeem.Answered?
            && (next.value.tokens != s.tokens <==> Bound(h.redeem.record, h.client, h.redirect))
            && (next.value.tokens != s.tokens ==>
                  next.value.tokens
                  == s.tokens + [Token(h.code, h.client, h.redirect, h.redeem.record.customer, h.redeem.at)])
  {
  }
}
