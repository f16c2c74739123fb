/**
  The OTP routes as one state machine over the shared store: a request is
  handled at a given time, and a trace of timed requests is run in order.
  The lemmas here relate several requests: re-issue, expiry, namespace
  isolation, and verification that never consumes a code.
 */
module OtpService {
  import opened Options
  import opened OtpStore
  import opened OtpRoutes

  datatype Request =
    | SignupSend(email: string, draw: Draw, sendResolved: bool)
    | ResetSend(email: string, draw: Draw, account: AccountCheck, sendResolved: bool)
    | SignupVerify(email: string, supplied: Supplied)
    | ResetVerify(email: string, supplied: Supplied)

  datatype Event = Event(at: int, request: Request)

  /** The key a request writes, if any. */
  function WrittenKey(req: Request): Option<string> {
    match req
    case SignupSend(email, _, _) => Some(SignupKey(email))
    case ResetSend(email, _, _, _) => Some(ResetKey(email))
    case _ => None
  }

  function Handle(store: Store, ev: Event): (out: Outcome)
    ensures WrittenKey(ev.request) == None ==> out.store == store
    ensures WrittenKey(ev.request).Some? ==>
      out.store - {WrittenKey(ev.request).value} == store - {WrittenKey(ev.request).value}
  {
    match ev.request
    case SignupSend(email, r, sendResolved) => SendSignupOtp(store, email, ev.at, r, sendResolved)
    case ResetSend(email, r, account, sendResolved) => SendResetOtp(store, email, ev.at, r, account, sendResolved)
    case SignupVerify(email, supplied) => Outcome(store, VerifySignupOtp(store, email, ev.at, supplied))
    case ResetVerify(email, supplied) => Outcome(store, VerifyResetOtp(store, email, ev.at, supplied))
  }

  datatype Session = Session(store: Store, replies: seq<Reply>)

  /** Handle the events in order, threading the store and collecting the replies. */
  function Run(store: Store, events: seq<Event>): (s: Session)
    ensures |s.replies| == |events|
    decreases |events|
  {
    if |events| == 0 then Session(store, [])
    else
      var first := Handle(store, events[0]);
      var rest := Run(first.store, events[1..]);
      Session(rest.store, [first.reply] + rest.replies)
  }

  /** Running two traces one after the other leaves the store their concatenation leaves. */
  lemma {:induction false} RunConcatenation(store: Store, a: seq<Event>, b: seq<Event>)
    ensures Run(store, a + b).store == Run(Run(store, a).store, b).store
    decreases |a|
  {
    if |a| == 0 {
      assert a + b == b;
    } else {
      var next := Handle(store, a[0]).store;
      assert (a + b)[0] == a[0];
      assert (a + b)[1..] == a[1..] + b;
      RunConcatenation(next, a[1..], b);
      assert Run(store, a + b).store == Run(next, a[1..] + b).store;
      assert Run(store, a).store == Run(next, a[1..]).store;
    }
  }

  /** A key that no event of the trace writes keeps its entry, and its absence, throughout. */
  lemma {:induction false} UnwrittenKeyUnchanged(store: Store, events: seq<Event>, key: string)
    requires forall i :: 0 <= i < |events| ==> WrittenKey(events[i].request) != Some(key)
    ensures key in Run(store, events).store <==> key in store
    ensures key in store ==> Run(store, events).store[key] == store[key]
    decreases |events|
  {
    if |events| > 0 {
      var first := Handle(store, events[0]);
      assert WrittenKey(events[0].request) != Some(key);
      assert key in first.store <==> key in store;
      assert key in store ==> first.store[key] == store[key];
      UnwrittenKeyUnchanged(first.store, events[1..], key);
    }
  }

  /** A trace of verifications alone leaves the store exactly as it was: no code is consumed. */
  lemma {:induction false} VerificationsAreReadOnly(store: Store, events: seq<Event>)
    requires forall i :: 0 <= i < |events| ==> events[i].request.SignupVerify? || events[i].request.ResetVerify?
    ensures Run(store, events).store == store
    decreases |events|
  {
    if |events| > 0 {
      VerificationsAreReadOnly(store, events[1..]);
    }
  }

  /**
    A signup code keeps verifying, however many other requests (any
    verification, any reset request, any signup request for another email)
    come between, until its 300 seconds are up.
   */
  lemma CodeVerifiesUntilItLapses(store: Store, email: string, t0: int, r: int, sendResolved: bool,
                                  events: seq<Event>, t: int)
    requires ValidDraw(r)
    requires forall i :: 0 <= i < |events| ==> WrittenKey(events[i].request) != Some(SignupKey(email))
    requires t0 <= t < t0 + OTP_TTL
    ensures VerifySignupOtp(Run(SendSignupOtp(store, email, t0, r, sendResolved).store, events).store,
                            email, t, Text(CodeText(r))) == Reply(200, Success)
  {
    var issued := SendSignupOtp(store, email, t0, r, sendResolved).store;
    assert Get(issued, SignupKey(email), t) == Some(CodeText(r));
    UnwrittenKeyUnchanged(issued, events, SignupKey(email));
  }

  /** A correct code presented 300 seconds or more after issue is reported as not found or expired. */
  lemma SignupCodeExpires(store: Store, email: string, t0: int, r: int, sendResolved: bool, t: int, supplied: Supplied)
    requires ValidDraw(r) && t >= t0 + OTP_TTL
    ensures VerifySignupOtp(SendSignupOtp(store, email, t0, r, sendResolved).store, email, t, supplied)
            == Reply(401, Failure("otp not found or expired"))
  {
  }

  /** The same for a reset code, which reports 403. */
  lemma ResetCodeExpires(store: Store, email: string, t0: int, r: int, account: AccountCheck, sendResolved: bool,
                         t: int, supplied: Supplied)
    requires ValidDraw(r) && t >= t0 + OTP_TTL
    ensures VerifyResetOtp(SendResetOtp(store, email, t0, r, account, sendResolved).store, email, t, supplied)
            == Reply(403, Failure("otp not found or expired"))
  {
  }

  /** After a second signup issue, the first code is "incorrect otp" while the second is live. */
  lemma SignupReissueReplacesCode(store: Store, email: string, t1: int, r1: int, t2: int, r2: int, t: int)
    requires ValidDraw(r1) && ValidDraw(r2) && r1 != r2
    requires t2 <= t < t2 + OTP_TTL
    ensures var s1 := SendSignupOtp(store, email, t1, r1, true).store;
            var s2 := SendSignupOtp(s1, email, t2, r2, true).store;
            VerifySignupOtp(s2, email, t, Text(CodeText(r1))) == Reply(401, Failure("incorrect otp"))
            && VerifySignupOtp(s2, email, t, Text(CodeText(r2))) == Reply(200, Success)
  {
    CodeTextInjective(r1, r2);
  }

  /** After a second reset issue, the first reset code is "incorrect otp". */
  lemma ResetReissueReplacesCode(store: Store, email: string, t1: int, r1: int, t2: int, r2: int, t: int,
                                 account: AccountCheck)
    requires ValidDraw(r1) && ValidDraw(r2) && r1 != r2
    requires t2 <= t < t2 + OTP_TTL
    ensures var s1 := SendResetOtp(store, email, t1, r1, account, true).store;
            var s2 := SendResetOtp(s1, email, t2, r2, account, true).store;
            VerifyResetOtp(s2, email, t, Text(CodeText(r1))) == Reply(401, Failure("incorrect otp"))
            && VerifyResetOtp(s2, email, t, Text(CodeText(r2))) == Reply(200, Success)
  {
    CodeTextInjective(r1, r2);
  }

  /** Signup verification reads only `otp:<email>`: stores that agree there give the same reply. */
  lemma SignupVerifyReadsOnlyItsKey(s1: Store, s2: Store, email: string, now: int, supplied: Supplied)
    requires SignupKey(email) in s1 <==> SignupKey(email) in s2
    requires SignupKey(email) in s1 ==> s1[SignupKey(email)] == s2[SignupKey(email)]
    ensures VerifySignupOtp(s1, email, now, supplied) == VerifySignupOtp(s2, email, now, supplied)
  {
  }

  /** Issuing a reset code never changes what signup verification answers, for any email. */
  lemma ResetIssueInvisibleToSignupVerify(store: Store, resetEmail: string, t0: int, r: int, account: AccountCheck,
                                          sendResolved: bool, email: string, now: int, supplied: Supplied)
    requires ValidDraw(r)
    ensures VerifySignupOtp(SendResetOtp(store, resetEmail, t0, r, account, sendResolved).store, email, now, supplied)
            == VerifySignupOtp(store, email, now, supplied)
  {
    NamespacesDisjoint(email, resetEmail);
    var s := SendResetOtp(store, resetEmail, t0, r, account, sendResolved).store;
    assert SignupKey(email) in s <==> SignupKey(email) in store;
  }

  /** Issuing a signup code never changes what reset verification answers, for any email. */
  lemma SignupIssueInvisibleToResetVerify(store: Store, signupEmail: string, t0: int, r: int, sendResolved: bool,
                                          email: string, now: int, supplied: Supplied)
    requires ValidDraw(r)
    ensures VerifyResetOtp(SendSignupOtp(store, signupEmail, t0, r, sendResolved).store, email, now, supplied)
            == VerifyResetOtp(store, email, now, supplied)
  {
    NamespacesDisjoint(signupEmail, email);
    var s := SendSignupOtp(store, signupEmail, t0, r, sendResolved).store;
    assert ResetKey(email) in s <==> ResetKey(email) in store;
  }

  /** A live reset code is never accepted by signup verification when no signup code is live. */
  lemma ResetCodeNeverPassesSignup(store: Store, email: string, t0: int, r: int, account: AccountCheck,
                                   sendResolved: bool, now: int)
    requires ValidDraw(r) && !Live(store, SignupKey(email), now)
    ensures VerifySignupOtp(SendResetOtp(store, email, t0, r, account, sendResolved).store, email, now, Text(CodeText(r)))
            == Reply(401, Failure("otp not found or expired"))
  {
    ResetIssueInvisibleToSignupVerify(store, email, t0, r, account, sendResolved, email, now, Text(CodeText(r)));
  }

  /**
    The reset route stores the code before it looks the account up: an
    unknown email gets 404, yet the code it was never sent verifies.
   */
  lemma UnknownAccountStillGetsLiveCode(store: Store, email: string, t0: int, r: int, sendResolved: bool, t: int)
    requires ValidDraw(r) && t0 <= t < t0 + OTP_TTL
    ensures var out := SendResetOtp(store, email, t0, r, AccountMissing, sendResolved);
            out.reply.status == 404
            && VerifyResetOtp(out.store, email, t, Text(CodeText(r))) == Reply(200, Success)
  {
  }

  /** A failed delivery (500) still leaves the new signup code live and verifiable. */
  lemma FailedDeliveryStillStoresCode(store: Store, email: string, t0: int, r: int, t: int)
    requires ValidDraw(r) && t0 <= t < t0 + OTP_TTL
    ensures var out := SendSignupOtp(store, email, t0, r, false);
            out.reply.status == 500
            && VerifySignupOtp(out.store, email, t, Text(CodeText(r))) == Reply(200, Success)
  {
  }
}
