/**
 How many codes one challenge can give, over every interleaving of the handlers. Handlers that
 hold the same challenge at once begin to do so when the later one looks it up.
 */
module AuthOneCode {
  import opened Wrappers
  import opened FreshIds
  import opened AuthCodes
  import opened AuthProtocol
  import T = AuthTokens

  predicate Holds(h: Handler, id: ChallengeId) {
    h.Verify? && h.challenge == id && !h.verify.Arrived? && !h.verify.Closed?
  }

  // No two verifying handlers are between looking up and removing the same challenge.
  ghost predicate HeldAlone(s: State) {
    forall i, j, id :: 0 <= i < j < |s.handlers| && Holds(s.handlers[i], id) ==> !Holds(s.handlers[j], id)
  }

  ghost predicate NeverOverlaps(events: seq<Event>)
    requires StateAfter(events).Some?
  {
    HeldAlone(StateAfter(events).value) && (events == [] || NeverOverlaps(events[..|events| - 1]))
  }

  predicate OnePerChallenge(s: State) {
    forall j, k :: 0 <= j < k < |s.mints| ==> s.mints[j].challenge != s.mints[k].challenge
  }

  // ---------- What the handlers under way can still do ----------

  predicate LooksUp(s: State, e: Event) {
    e.Step? && e.index < |s.handlers| && s.handlers[e.index].Verify? && s.handlers[e.index].verify.Arrived?
  }

  predicate FreeStep(s: State, e: Event, s': State) {
    Apply(s, e) == Some(s') && !LooksUp(s, e)
  }

  // A path on which no handler looks up a challenge.
  predicate FreePath(events: seq<Event>, states: seq<State>) {
    |states| == |events| + 1 && forall k :: 0 <= k < |events| ==> FreeStep(states[k], events[k], states[k + 1])
  }

  predicate MintsTwo(s: State, events: seq<Event>, states: seq<State>) {
    FreePath(events, states) && states[0] == s && !OnePerChallenge(states[|events|])
  }

  // Without any further look-up a challenge can come to have yielded two codes.
  ghost predicate CanMintTwo(s: State) {
    exists events, states :: MintsTwo(s, events, states)
  }

  lemma JoinPaths(e1: seq<Event>, s1: seq<State>, e2: seq<Event>, s2: seq<State>)
    requires FreePath(e1, s1) && FreePath(e2, s2) && s1[|e1|] == s2[0]
    ensures FreePath(e1 + e2, s1 + s2[1..])
    ensures (s1 + s2[1..])[0] == s1[0] && (s1 + s2[1..])[|e1 + e2|] == s2[|e2|]
  {
    var events, states := e1 + e2, s1 + s2[1..];
    forall k | 0 <= k < |events|
      ensures FreeStep(states[k], events[k], states[k + 1])
    {
      if k >= |e1| {
        assert FreeStep(s2[k - |e1|], e2[k - |e1|], s2[k - |e1| + 1]);
      }
    }
  }

  // ---------- Alone, a challenge yields one code ----------

  // A challenge a code was minted from is gone, or in the hands of the handler that minted it.
  predicate Spent(s: State, id: ChallengeId) {
    && (forall i :: 0 <= i < |s.handlers| && Holds(s.handlers[i], id) ==> s.handlers[i].verify.Minted?)
    && (id in s.store.listed ==> exists i :: 0 <= i < |s.handlers| && Holds(s.handlers[i], id))
  }

  predicate SpentAll(s: State) {
    forall k :: 0 <= k < |s.mints| ==> Spent(s, s.mints[k].challenge)
  }

  lemma SpentStays(s: State, e: Event, id: ChallengeId)
    requires Apply(s, e).Some? && id in s.store.objects && Spent(s, id)
    requires HeldAlone(s) && HeldAlone(Apply(s, e).value)
    ensures Spent(Apply(s, e).value, id)
  {
    var s' := Apply(s, e).value;
    if e.Step? {
      assert forall j :: 0 <= j < |s.handlers| && j != e.index ==> s'.handlers[j] == s.handlers[j];
      SpentStep(s, s', e.index, id);
    } else {
      assert forall i :: 0 <= i < |s.handlers| ==> s'.handlers[i] == s.handlers[i];
    }
  }

  lemma SpentStep(s: State, s': State, i: nat, id: ChallengeId)
    requires i < |s.handlers| == |s'.handlers| && Spent(s, id) && HeldAlone(s) && HeldAlone(s')
    requires forall j :: 0 <= j < |s.handlers| && j != i ==> s'.handlers[j] == s.handlers[j]
    requires exists code :: Apply(s, Step(i, code)) == Some(s')
    ensures Spent(s', id)
  {
    var code :| Apply(s, Step(i, code)) == Some(s');
    if id in s.store.listed {
      var k :| 0 <= k < |s.handlers| && Holds(s.handlers[k], id);
      assert k != i ==> Holds(s'.handlers[k], id);
      assert k == i || !Holds(s.handlers[i], id);
    }
  }

  lemma OneCodeStep(s: State, e: Event)
    requires Inv(s) && Apply(s, e).Some? && HeldAlone(s) && HeldAlone(Apply(s, e).value)
    requires OnePerChallenge(s) && SpentAll(s)
    ensures OnePerChallenge(Apply(s, e).value) && SpentAll(Apply(s, e).value)
  {
    var s' := Apply(s, e).value;
    AllStaySpent(s, e);
    if e.Step? && s.handlers[e.index].Verify? && s.handlers[e.index].verify.Copied? {
      LastMintSpent(s, e.index, e.code);
      OneMore(s, s', s.handlers[e.index].challenge);
    } else {
      CodesStay(s, e);
    }
  }

  lemma OneMore(s: State, s': State, id: ChallengeId)
    requires OnePerChallenge(s) && |s'.mints| == |s.mints| + 1 && s.mints <= s'.mints
    requires s'.mints[|s.mints|].challenge == id && Spent(s', id)
    requires forall k :: 0 <= k < |s.mints| ==> s.mints[k].challenge != id && Spent(s', s.mints[k].challenge)
    ensures OnePerChallenge(s') && SpentAll(s')
  {
  }

  lemma AllStaySpent(s: State, e: Event)
    requires MintsBacked(s) && Apply(s, e).Some? && HeldAlone(s) && HeldAlone(Apply(s, e).value) && SpentAll(s)
    ensures forall k :: 0 <= k < |s.mints| ==> Spent(Apply(s, e).value, s.mints[k].challenge)
  {
    forall k | 0 <= k < |s.mints|
      ensures Spent(Apply(s, e).value, s.mints[k].challenge)
    {
      assert MintBacked(s.mints[k], s);
      SpentStays(s, e, s.mints[k].challenge);
    }
  }

  lemma LastMintSpent(s: State, i: nat, code: CodeId)
    requires i < |s.handlers| && s.handlers[i].Verify? && s.handlers[i].verify.Copied? && StepVerify(s, i, code).Some?
    requires HeldAlone(s) && SpentAll(s)
    ensures var s' := StepVerify(s, i, code).value;
            && |s'.mints| == |s.mints| + 1 && s.mints <= s'.mints
            && s'.mints[|s.mints|].challenge == s.handlers[i].challenge
            && Spent(s', s.handlers[i].challenge)
            && forall k :: 0 <= k < |s.mints| ==> s.mints[k].challenge != s.handlers[i].challenge
  {
    var s', id := StepVerify(s, i, code).value, s.handlers[i].challenge;
    assert Holds(s.handlers[i], id) && Holds(s'.handlers[i], id);
    forall j | 0 <= j < |s.handlers| && j != i
      ensures !Holds(s'.handlers[j], id)
    {
      assert s'.handlers[j] == s.handlers[j];
    }
  }

  // While no two handlers overlap on a challenge, it yields at most one code.
  lemma {:induction false} OneCodePerChallenge(events: seq<Event>)
    requires StateAfter(events).Some? && NeverOverlaps(events)
    ensures OnePerChallenge(StateAfter(events).value) && SpentAll(StateAfter(events).value)
  {
    if events != [] {
      OneCodePerChallenge(events[..|events| - 1]);
      RunsKeepInv(events[..|events| - 1]);
      OneCodeStep(StateAfter(events[..|events| - 1]).value, events[|events| - 1]);
    }
  }

  // Without a look-up nobody comes to hold a challenge.
  lemma FreeStepKeepsAlone(s: State, e: Event, s': State)
    requires HeldAlone(s) && FreeStep(s, e, s')
    ensures HeldAlone(s')
  {
    forall i, id | 0 <= i < |s'.handlers| && Holds(s'.handlers[i], id)
      ensures i < |s.handlers| && Holds(s.handlers[i], id)
    {
      if e.Step? && e.index != i {
        assert s'.handlers[i] == s.handlers[i];
      }
    }
  }

  lemma {:induction false} FreePathMintsOne(events: seq<Event>, states: seq<State>)
    requires FreePath(events, states) && Inv(states[0]) && HeldAlone(states[0])
    requires OnePerChallenge(states[0]) && SpentAll(states[0])
    ensures var s' := states[|events|]; Inv(s') && HeldAlone(s') && OnePerChallenge(s') && SpentAll(s')
  {
    var n := |events|;
    if n > 0 {
      var s, e := states[n - 1], events[n - 1];
      assert FreeStep(s, e, states[n]);
      FreePathMintsOne(events[..n - 1], states[..n]);
      FreeStepKeepsAlone(s, e, states[n]);
      InvStep(s, e);
      OneCodeStep(s, e);
    }
  }

  // ---------- Two holders can mint two codes ----------

  // Handler i holds its challenge and has not minted yet.
  predicate Verifying(s: State, i: nat) {
    && i < |s.handlers| && s.handlers[i].Verify? && s.handlers[i].challenge in s.store.objects
    && (s.handlers[i].verify.Holding? || s.handlers[i].verify.Checked? || s.handlers[i].verify.Copied?)
  }

  // It can mint as things stand.
  predicate CanProceed(s: State, i: nat)
    requires Verifying(s, i)
  {
    var h, c := s.handlers[i], s.store.objects[s.handlers[i].challenge];
    match h.verify
    case Holding(_) => OtpAccepted(c, h.otp, s.now)
    case Checked(_, _) => c.customer.Some?
    case _ => true
  }

  // Handler i has minted a code from its challenge, and the other handlers are as they were.
  predicate Driven(s: State, s': State, i: nat, code: CodeId)
    requires Verifying(s, i)
  {
    && |s'.handlers| == |s.handlers|
    && (forall j :: 0 <= j < |s.handlers| && j != i ==> s'.handlers[j] == s.handlers[j])
    && s'.sending.None? && s'.store.listed == s.store.listed && s'.store.objects.Keys == s.store.objects.Keys
    && s'.store.codes.Keys == s.store.codes.Keys + {code}
    && |s'.mints| == |s.mints| + 1 && s.mints <= s'.mints
    && s'.mints[|s.mints|].challenge == s.handlers[i].challenge
    && (CanProceed(s, i) ==> s'.now == s.now && s'.store.objects == s.store.objects)
  }

  lemma {:induction false} Proceeds(s: State, i: nat, code: CodeId) returns (events: seq<Event>, states: seq<State>)
    requires Verifying(s, i) && CanProceed(s, i) && s.sending.None? && code !in s.store.codes
    ensures FreePath(events, states) && states[0] == s && Driven(s, states[|events|], i, code)
    decreases if s.handlers[i].verify.Holding? then 2 else if s.handlers[i].verify.Checked? then 1 else 0
  {
    var s1 := Apply(s, Step(i, code)).value;
    events, states := [Step(i, code)], [s, s1];
    if !s.handlers[i].verify.Copied? {
      var e, r := Proceeds(s1, i, code);
      JoinPaths(events, states, e, r);
      events, states := events + e, states + r[1..];
    }
  }

  // A password is attached that the handler has submitted.
  lemma Attaches(s: State, i: nat) returns (events: seq<Event>, states: seq<State>)
    requires Verifying(s, i) && s.sending.None? && s.handlers[i].challenge in s.store.listed
    ensures FreePath(events, states) && states[0] == s
    ensures var s' := states[|events|];
            && s'.handlers == s.handlers && s'.mints == s.mints && s'.sending.None?
            && s'.store.listed == s.store.listed && s'.store.codes == s.store.codes
            && s'.store.objects.Keys == s.store.objects.Keys
            && Verifying(s', i) && CanProceed(s', i)
  {
    var h := s.handlers[i];
    var s1 := Apply(s, SendOtp(h.challenge, Customer("", ""), h.otp)).value;
    var s2 := Apply(s1, FinishSend).value;
    events, states := [SendOtp(h.challenge, Customer("", ""), h.otp), FinishSend], [s, s1, s2];
  }

  lemma Drives(s: State, i: nat, code: CodeId) returns (events: seq<Event>, states: seq<State>)
    requires Verifying(s, i) && s.sending.None? && code !in s.store.codes
    requires CanProceed(s, i) || s.handlers[i].challenge in s.store.listed
    ensures FreePath(events, states) && states[0] == s && Driven(s, states[|events|], i, code)
  {
    if CanProceed(s, i) {
      events, states := Proceeds(s, i, code);
    } else {
      var e1, s1 := Attaches(s, i);
      var e2, s2 := Proceeds(s1[|e1|], i, code);
      JoinPaths(e1, s1, e2, s2);
      events, states := e1 + e2, s1 + s2[1..];
    }
  }

  // A handler that has minted has its mint in the history.
  predicate MintsKept(s: State) {
    forall i :: 0 <= i < |s.handlers| && s.handlers[i].Verify? && s.handlers[i].verify.Minted? ==>
      HasMint(s, s.handlers[i].challenge)
  }

  predicate HasMint(s: State, id: ChallengeId) {
    exists k :: 0 <= k < |s.mints| && s.mints[k].challenge == id
  }

  lemma {:induction false} RunsKeepMints(events: seq<Event>)
    requires StateAfter(events).Some?
    ensures MintsKept(StateAfter(events).value)
  {
    if events != [] {
      RunsKeepMints(events[..|events| - 1]);
      MintsKeptStep(StateAfter(events[..|events| - 1]).value, events[|events| - 1]);
    }
  }

  lemma MintsKeptStep(s: State, e: Event)
    requires MintsKept(s) && Apply(s, e).Some?
    ensures MintsKept(Apply(s, e).value)
  {
    var s' := Apply(s, e).value;
    forall i | 0 <= i < |s'.handlers| && s'.handlers[i].Verify? && s'.handlers[i].verify.Minted?
      ensures HasMint(s', s'.handlers[i].challenge)
    {
      if e.Step? && e.index == i {
        assert s'.mints[|s.mints|].challenge == s'.handlers[i].challenge;
      } else {
        assert s'.handlers[i] == s.handlers[i];
        var k :| 0 <= k < |s.mints| && s.mints[k].challenge == s.handlers[i].challenge;
        assert s'.mints[k] == s.mints[k];
      }
    }
  }

  // Two handlers that hold the same challenge, one of which has not minted yet, can together mint
  // two codes from it, unless it is gone and they lack the password on it.
  lemma HoldersMintTwo(s: State, i: nat, j: nat)
    requires MintsKept(s) && s.sending.None? && i < |s.handlers| && i != j
    requires Verifying(s, j) && Holds(s.handlers[i], s.handlers[j].challenge)
    requires s.handlers[j].challenge in s.store.listed
          || (CanProceed(s, j) && (s.handlers[i].verify.Minted? || CanProceed(s, i)))
    ensures CanMintTwo(s)
  {
    var id, c1 := s.handlers[j].challenge, Unused(s.store.codes.Keys);
    if s.handlers[i].verify.Minted? {
      var k :| 0 <= k < |s.mints| && s.mints[k].challenge == id;
      var events, states := Drives(s, j, c1);
      SecondMint(s.mints, states[|events|], k, id);
      assert MintsTwo(s, events, states);
    } else {
      var e1, s1 := Drives(s, i, c1);
      var mid := s1[|e1|];
      var e2, s2 := Drives(mid, j, Unused(mid.store.codes.Keys));
      JoinPaths(e1, s1, e2, s2);
      SecondMint(mid.mints, s2[|e2|], |s.mints|, id);
      assert MintsTwo(s, e1 + e2, s1 + s2[1..]);
    }
  }

  lemma SecondMint(mints: seq<Mint>, s': State, k: nat, id: ChallengeId)
    requires k < |mints| && mints[k].challenge == id
    requires |s'.mints| == |mints| + 1 && mints <= s'.mints && s'.mints[|mints|].challenge == id
    ensures !OnePerChallenge(s')
  {
    assert s'.mints[k] == mints[k];
  }

  // In whatever run two handlers hold the same listed challenge, or both with its password.
  lemma OverlapMintsTwo(events: seq<Event>, i: nat, j: nat)
    requires StateAfter(events).Some?
    requires var s := StateAfter(events).value;
             && s.sending.None? && i < |s.handlers| && i != j
             && Verifying(s, j) && Holds(s.handlers[i], s.handlers[j].challenge)
             && (s.handlers[j].challenge in s.store.listed
                 || (CanProceed(s, j) && (s.handlers[i].verify.Minted? || CanProceed(s, i))))
    ensures CanMintTwo(StateAfter(events).value)
  {
    RunsKeepMints(events);
    HoldersMintTwo(StateAfter(events).value, i, j);
  }

  // ---------- The exact condition ----------

  // An overlap begins with a look-up, which finds the challenge listed.
  lemma OverlapBegins(s: State, e: Event) returns (i: nat, j: nat)
    requires HandlersBacked(s) && HeldAlone(s) && Apply(s, e).Some? && !HeldAlone(Apply(s, e).value)
    ensures var s' := Apply(s, e).value;
            && s'.sending.None? && i < |s'.handlers| && i != j
            && Verifying(s', j) && Holds(s'.handlers[i], s'.handlers[j].challenge)
            && s'.handlers[j].challenge in s'.store.listed
  {
    var s' := Apply(s, e).value;
    if !LooksUp(s, e) {
      FreeStepKeepsAlone(s, e, s');
      assert false;
    }
    var a, b, id :| 0 <= a < b < |s'.handlers| && Holds(s'.handlers[a], id) && Holds(s'.handlers[b], id);
    assert forall k :: 0 <= k < |s.handlers| && k != e.index ==> s'.handlers[k] == s.handlers[k];
    j := e.index;
    i := if a == j then b else a;
  }

  // After a run without an overlap, whatever happens next: the handlers under way can mint two
  // codes from one challenge if and only if two of them have come to hold the same one.
  lemma NextCodeExactly(events: seq<Event>, e: Event)
    requires StateAfter(events).Some? && NeverOverlaps(events) && StateAfter(events + [e]).Some?
    ensures CanMintTwo(StateAfter(events + [e]).value) <==> !HeldAlone(StateAfter(events + [e]).value)
  {
    var all := events + [e];
    assert all[..|all| - 1] == events;
    var s, s' := StateAfter(events).value, StateAfter(all).value;
    RunsKeepInv(events);
    if HeldAlone(s') {
      AloneMintsOne(all);
    } else {
      var i, j := OverlapBegins(s, e);
      OverlapMintsTwo(all, i, j);
    }
  }

  lemma AloneMintsOne(events: seq<Event>)
    requires StateAfter(events).Some? && NeverOverlaps(events)
    ensures !CanMintTwo(StateAfter(events).value)
  {
    var s := StateAfter(events).value;
    RunsKeepInv(events);
    OneCodePerChallenge(events);
    if CanMintTwo(s) {
      var more: seq<Event>, states: seq<State> :| MintsTwo(s, more, states);
      FreePathMintsOne(more, states);
    }
  }

  // At no point of the run could the handlers under way mint two codes from one challenge.
  ghost predicate NeverAtRisk(events: seq<Event>)
    requires StateAfter(events).Some?
  {
    !CanMintTwo(StateAfter(events).value) && (events == [] || NeverAtRisk(events[..|events| - 1]))
  }

  // So a run is never at risk of a second code if and only if no two handlers ever hold the same
  // challenge at once.
  lemma {:induction false} OneCodeExactly(events: seq<Event>)
    requires StateAfter(events).Some?
    ensures NeverAtRisk(events) <==> NeverOverlaps(events)
  {
    if events == [] {
      AloneMintsOne(events);
    } else {
      var before, e := events[..|events| - 1], events[|events| - 1];
      OneCodeExactly(before);
      assert before + [e] == events;
      if NeverOverlaps(before) {
        NextCodeExactly(before, e);
      }
    }
  }

  // Two requests with the same challenge and password that both look it up before either mints.
  lemma OverlapIsReached() returns (events: seq<Event>)
    ensures StateAfter(events).Some? && !OnePerChallenge(StateAfter(events).value)
  {
    var h := Verify(0, "111111", Arrived);
    var s := T.LoginOpen;
    var first := [Arrive(h), Step(0, 0), Arrive(h), Step(1, 0)];
    T.LoginOpens();
    T.LooksUp(s, h);
    var s2 := s.(handlers := [] + [h.(verify := Holding(s.now))]);
    T.LooksUp(s2, h);
    var s4 := s2.(handlers := s2.handlers + [h.(verify := Holding(s.now))]);
    Leads(T.OpenLogin, first, [s, s.(handlers := [] + [h]), s2, s2.(handlers := s2.handlers + [h]), s4]);
    OverlapMintsTwo(T.OpenLogin + first, 0, 1);
    var more: seq<Event>, states: seq<State> :| MintsTwo(s4, more, states);
    FreePathLeads(T.OpenLogin + first, more, states);
    events := T.OpenLogin + first + more;
  }

  lemma FreePathLeads(events: seq<Event>, more: seq<Event>, states: seq<State>)
    requires FreePath(more, states) && StateAfter(events) == Some(states[0])
    ensures StateAfter(events + more) == Some(states[|more|])
  {
    assert forall k :: 0 <= k < |more| ==> FreeStep(states[k], more[k], states[k + 1]);
    Leads(events, more, states);
  }
}
