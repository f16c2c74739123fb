/**
  The four OTP routes: signup issue and verify under `otp:<email>`,
  password-reset issue and verify under `passwordOtp:<email>`.
  The random draw, the clock, the account lookup and the e-mail delivery
  outcome are parameters.
 */
module OtpRoutes {
  import opened Options
  import opened Decimal
  import opened OtpStore

  /** `Math.floor(100000 + Math.random() * 900000)` with the draw taken as an integer. */
  const CODE_BASE: int := 100000
  const DRAW_SPAN: int := 900000

  predicate ValidDraw(r: int) {
    0 <= r < DRAW_SPAN
  }

  /** A draw that the random expression can produce. */
  type Draw = r: int | 0 <= r < DRAW_SPAN witness 0

  function DrawCode(r: int): (code: nat)
    requires ValidDraw(r)
    ensures 100000 <= code <= 999999
  {
    CODE_BASE + r
  }

  /** The value Redis holds after `SET` of the numeric code: its decimal text. */
  function CodeText(r: int): (t: string)
    requires ValidDraw(r)
    ensures |t| == 6 && AllDigits(t) && t[0] != '0'
    ensures ValueOf(t) == DrawCode(r)
  {
    SixDigitText(DrawCode(r));
    ValueOfNatToText(DrawCode(r));
    NatToText(DrawCode(r))
  }

  /** Every six-digit code is reachable from exactly one draw. */
  lemma DrawCodeBijective(code: int)
    requires 100000 <= code <= 999999
    ensures ValidDraw(code - CODE_BASE) && DrawCode(code - CODE_BASE) == code
    ensures forall r :: ValidDraw(r) && DrawCode(r) == code ==> r == code - CODE_BASE
  {
  }

  /** Distinct draws store distinct codes. */
  lemma CodeTextInjective(r1: int, r2: int)
    requires ValidDraw(r1) && ValidDraw(r2)
    ensures CodeText(r1) == CodeText(r2) <==> r1 == r2
  {
    NatToTextInjective(DrawCode(r1), DrawCode(r2));
  }

  datatype Body =
    | Success                 // { success: true }
    | Failure(message: string) // { success: false, message }
    | DeliveryError           // the error thrown by the e-mail provider call, serialised

  datatype Reply = Reply(status: int, body: Body)

  /** The store after a request, and the reply sent. */
  datatype Outcome = Outcome(store: Store, reply: Reply)

  /** Result of `prisma.user.findUnique` in the reset issue route. */
  datatype AccountCheck = AccountFound | AccountMissing | DatabaseDown

  /**
    POST /api/auth/send-otp: store the code, then call the mail provider.
    `sendResolved` says whether that call returned rather than threw; a
    provider that reports a rejected message in its resolved value still
    counts as resolved, and the route answers 200.
   */
  function SendSignupOtp(store: Store, email: string, now: int, r: int, sendResolved: bool): (out: Outcome)
    requires ValidDraw(r)
    ensures forall t :: now <= t < now + OTP_TTL ==> Get(out.store, SignupKey(email), t) == Some(CodeText(r))
    ensures forall t :: t >= now + OTP_TTL ==> Get(out.store, SignupKey(email), t) == None
    ensures out.store - {SignupKey(email)} == store - {SignupKey(email)}
    ensures out.reply.status == 200 <==> sendResolved
    ensures out.reply == (if sendResolved then Reply(200, Success) else Reply(500, DeliveryError))
  {
    var stored := SetEx(store, SignupKey(email), CodeText(r), OTP_TTL, now);
    Outcome(stored, if sendResolved then Reply(200, Success) else Reply(500, DeliveryError))
  }

  /**
    POST /api/auth/send-otp/forgot-password: store the code, then check the
    account, then call the mail provider (`sendResolved` as above).
   */
  function SendResetOtp(store: Store, email: string, now: int, r: int, account: AccountCheck, sendResolved: bool): (out: Outcome)
    requires ValidDraw(r)
    ensures forall t :: now <= t < now + OTP_TTL ==> Get(out.store, ResetKey(email), t) == Some(CodeText(r))
    ensures forall t :: t >= now + OTP_TTL ==> Get(out.store, ResetKey(email), t) == None
    ensures out.store - {ResetKey(email)} == store - {ResetKey(email)}
    ensures out.reply.status == 200 <==> account == AccountFound && sendResolved
    ensures account == AccountMissing ==> out.reply == Reply(404, Failure("account doesn't exist"))
    ensures account == DatabaseDown ==> out.reply == Reply(500, Failure("error reaching the database"))
    ensures account == AccountFound && !sendResolved ==> out.reply == Reply(500, DeliveryError)
  {
    var stored := SetEx(store, ResetKey(email), CodeText(r), OTP_TTL, now);
    var reply :=
      match account
      case AccountMissing => Reply(404, Failure("account doesn't exist"))
      case DatabaseDown => Reply(500, Failure("error reaching the database"))
      case AccountFound => if sendResolved then Reply(200, Success) else Reply(500, DeliveryError);
    Outcome(stored, reply)
  }

  /** The `otp` field of the request body: a string, or anything else JSON allows (absent included). */
  datatype Supplied = Text(s: string) | NonText

  datatype Verdict = NotFoundOrExpired | Incorrect | Verified

  /**
    The decision both verify routes share: `!storedOtp` (no value, or the
    empty string) first, then strict `storedOtp !== otp`.
   */
  function Decide(stored: Option<string>, supplied: Supplied): (v: Verdict)
    ensures v == Verified <==> stored.Some? && stored.value != "" && supplied == Text(stored.value)
    ensures v == NotFoundOrExpired <==> stored == None || stored == Some("")
  {
    match stored
    case None => NotFoundOrExpired
    case Some(code) =>
      if code == "" then NotFoundOrExpired
      else if supplied != Text(code) then Incorrect
      else Verified
  }

  /** POST /api/auth/verify-otp: reads `otp:<email>`, writes nothing. */
  function VerifySignupOtp(store: Store, email: string, now: int, supplied: Supplied): (reply: Reply)
    ensures reply.status == 200 <==>
      Live(store, SignupKey(email), now) && store[SignupKey(email)].code != ""
      && supplied == Text(store[SignupKey(email)].code)
    ensures !Live(store, SignupKey(email), now) ==> reply == Reply(401, Failure("otp not found or expired"))
    ensures (Live(store, SignupKey(email), now) && store[SignupKey(email)].code != ""
             && supplied != Text(store[SignupKey(email)].code))
            ==> reply == Reply(401, Failure("incorrect otp"))
    ensures reply.status == 200 || reply.status == 401
  {
    match Decide(Get(store, SignupKey(email), now), supplied)
    case NotFoundOrExpired => Reply(401, Failure("otp not found or expired"))
    case Incorrect => Reply(401, Failure("incorrect otp"))
    case Verified => Reply(200, Success)
  }

  /** POST /api/auth/verify-otp/forgot-password: reads `passwordOtp:<email>`, writes nothing. */
  function VerifyResetOtp(store: Store, email: string, now: int, supplied: Supplied): (reply: Reply)
    ensures reply.status == 200 <==>
      Live(store, ResetKey(email), now) && store[ResetKey(email)].code != ""
      && supplied == Text(store[ResetKey(email)].code)
    ensures !Live(store, ResetKey(email), now) ==> reply == Reply(403, Failure("otp not found or expired"))
    ensures (Live(store, ResetKey(email), now) && store[ResetKey(email)].code != ""
             && supplied != Text(store[ResetKey(email)].code))
            ==> reply == Reply(401, Failure("incorrect otp"))
    ensures reply.status in {200, 401, 403}
  {
    match Decide(Get(store, ResetKey(email), now), supplied)
    case NotFoundOrExpired => Reply(403, Failure("otp not found or expired"))
    case Incorrect => Reply(401, Failure("incorrect otp"))
    case Verified => Reply(200, Success)
  }
}
