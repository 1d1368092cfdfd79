/**
 The authorization-code store of the bank login service: challenges, the codes minted from
 them and their redemption (sections 4.1.2 and 4.1.3 of RFC 6749). Time is in seconds.
 */
module AuthCodes {
  import opened Wrappers

  type ChallengeId = nat
  type CodeId = nat
  type Name = string

  const CHALLENGE_TTL := 300.0
  const OTP_TTL := 300.0
  const AUTH_CODE_TTL := 60.0

  datatype Customer = Customer(id: Name, phone: Name)

  datatype Password = Password(otp: string, expiresAt: real)

  // `customer` and `password` are filled in, in this order, once the customer is known.
  datatype Challenge = Challenge(client: Name, redirect: Name, expiresAt: real,
                                 customer: Option<Customer>, password: Option<Password>)

  datatype Code = Code(client: Name, redirect: Name, customer: Name, createdAt: real, expiresAt: real, used: bool)

  datatype Refresh = Refresh(client: Name, customer: Name)

  // `objects` are all challenges ever created: a handler that holds one keeps seeing it, and
  // changes to it, after its id left the dictionary, whose keys are `listed`.
  datatype Store = Store(objects: map<ChallengeId, Challenge>, listed: set<ChallengeId>,
                         codes: map<CodeId, Code>, refresh: seq<Refresh>)

  const EmptyStore := Store(map[], {}, map[], [])

  // ---------- The calls made under the lock ----------

  function CreateChallenge(st: Store, id: ChallengeId, client: Name, redirect: Name, now: real): Store {
    st.(objects := st.objects[id := Challenge(client, redirect, now + CHALLENGE_TTL, None, None)],
        listed := st.listed + {id})
  }

  predicate Available(st: Store, id: ChallengeId, now: real) {
    id in st.listed && id in st.objects && now <= st.objects[id].expiresAt
  }

  // Looking up an expired challenge removes it.
  function GetChallenge(st: Store, id: ChallengeId, now: real): (Store, bool) {
    if Available(st, id, now) then (st, true) else (st.(listed := st.listed - {id}), false)
  }

  // Attaching a password writes the customer first, then the password.
  function WriteCustomer(st: Store, id: ChallengeId, customer: Customer): Store
    requires id in st.objects
  {
    st.(objects := st.objects[id := st.objects[id].(customer := Some(customer))])
  }

  function WritePassword(st: Store, id: ChallengeId, otp: string, now: real): Store
    requires id in st.objects
  {
    st.(objects := st.objects[id := st.objects[id].(password := Some(Password(otp, now + OTP_TTL)))])
  }

  function SetOtp(st: Store, id: ChallengeId, customer: Customer, otp: string, now: real): Store {
    if id in st.listed && id in st.objects
    then WritePassword(WriteCustomer(st, id, customer), id, otp, now)
    else st
  }

  function PopChallenge(st: Store, id: ChallengeId): Store {
    st.(listed := st.listed - {id})
  }

  function CreateCode(st: Store, code: CodeId, client: Name, redirect: Name, customer: Name, now: real): Store {
    st.(codes := st.codes[code := Code(client, redirect, customer, now, now + AUTH_CODE_TTL, false)])
  }

  predicate Redeemable(st: Store, code: CodeId, now: real) {
    code in st.codes && !st.codes[code].used && now <= st.codes[code].expiresAt
  }

  function Consume(st: Store, code: CodeId, now: real): (Store, Option<Code>) {
    if Redeemable(st, code, now)
    then
      var record := st.codes[code].(used := true);
      (st.(codes := st.codes[code := record]), Some(record))
    else (st, None)
  }

  // What /login/verify checks of the challenge it holds.
  predicate OtpAccepted(c: Challenge, otp: string, now: real) {
    c.customer.Some? && c.password.Some? && now <= c.password.value.expiresAt && otp == c.password.value.otp
  }

  predicate Bound(record: Code, client: Name, redirect: Name) {
    record.redirect == redirect && record.client == client
  }

  // ---------- The store and its handlers ----------

  class AuthStore {
    var objects: map<ChallengeId, Challenge>
    var listed: set<ChallengeId>
    var codes: map<CodeId, Code>
    var refresh: seq<Refresh>

    constructor ()
      ensures Value() == EmptyStore
    {
      objects, listed, codes, refresh := map[], {}, map[], [];
    }

    function Value(): Store
      reads this
    {
      Store(objects, listed, codes, refresh)
    }

    method Get(id: ChallengeId, now: real) returns (found: bool)
      modifies this`listed
      ensures (Value(), found) == GetChallenge(old(Value()), id, now)
    {
      if id !in listed || id !in objects {
        listed := listed - {id};
        return false;
      }
      if now > objects[id].expiresAt {
        listed := listed - {id};
        return false;
      }
      found := true;
    }

    method AttachOtp(id: ChallengeId, customer: Customer, otp: string, now: real) returns (known: bool)
      modifies this`objects
      ensures known <==> id in listed && id in objects
      ensures Value() == SetOtp(old(Value()), id, customer, otp, now)
    {
      if id !in listed || id !in objects {
        return false;
      }
      objects := objects[id := objects[id].(customer := Some(customer))];
      objects := objects[id := objects[id].(password := Some(Password(otp, now + OTP_TTL)))];
      known := true;
    }

    method ConsumeCode(code: CodeId, now: real) returns (record: Option<Code>)
      modifies this`codes
      ensures (Value(), record) == Consume(old(Value()), code, now)
    {
      if code !in codes || codes[code].used || now > codes[code].expiresAt {
        return None;
      }
      var marked := codes[code].(used := true);
      codes := codes[code := marked];
      record := Some(marked);
    }

    // /login/verify run without interruption; `code` is the freshly generated token.
    method LoginVerify(id: ChallengeId, otp: string, code: CodeId, now: real) returns (minted: bool)
      requires code !in codes
      modifies this
      ensures minted <==> Available(old(Value()), id, now) && OtpAccepted(old(objects)[id], otp, now)
      ensures minted ==>
                var c := old(objects)[id];
                var minted := CreateCode(old(Value()), code, c.client, c.redirect, c.customer.value.id, now);
                Value() == PopChallenge(minted, id)
      ensures !minted ==> Value() == GetChallenge(old(Value()), id, now).0
    {
      var found := Get(id, now);
      if !found {
        return false;
      }
      var challenge := objects[id];
      if challenge.password.None? || challenge.customer.None?
         || now > challenge.password.value.expiresAt || otp != challenge.password.value.otp {
        return false;
      }
      codes := codes[code := Code(challenge.client, challenge.redirect, challenge.customer.value.id,
                                  now, now + AUTH_CODE_TTL, false)];
      listed := listed - {id};
      minted := true;
    }

    // /token: a code is burnt even when its binding turns out not to match.
    method Token(code: CodeId, client: Name, redirect: Name, clientOk: bool, now: real) returns (customer: Option<Name>)
      modifies this
      ensures customer.Some? <==>
                clientOk && Redeemable(old(Value()), code, now) && Bound(old(codes)[code], client, redirect)
      ensures customer.Some? ==> customer.value == old(codes)[code].customer
      ensures !clientOk ==> Value() == old(Value())
      ensures clientOk ==>
                Value() == Consume(old(Value()), code, now).0.(
                  refresh := old(refresh) + if customer.Some? then [Refresh(client, customer.value)] else [])
    {
      if !clientOk {
        return None;
      }
      var record := ConsumeCode(code, now);
      if record.None? {
        return None;
      }
      if record.value.redirect != redirect || record.value.client != client {
        return None;
      }
      refresh := refresh + [Refresh(client, record.value.customer)];
      customer := Some(record.value.customer);
    }
  }
}
