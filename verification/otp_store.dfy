/**
  The Redis keyspace shared by the OTP routes: string keys holding a text
  value and an absolute expiry time, read and written with `GET` and
  `SET key value EX ttl`. Time is in whole seconds.
 */
module OtpStore {
  import opened Options

  /** The lifetime, in seconds, that both issue routes give a code. */
  const OTP_TTL: int := 300

  datatype Entry = Entry(code: string, expiresAt: int)

  /** Expired entries may linger in the map; `Get` no longer sees them. */
  type Store = map<string, Entry>

  /** Key of the signup verification code for `email`. */
  function SignupKey(email: string): string {
    "otp:" + email
  }

  /** Key of the password-reset code for `email`. */
  function ResetKey(email: string): string {
    "passwordOtp:" + email
  }

  predicate Live(store: Store, key: string, now: int) {
    key in store && now < store[key].expiresAt
  }

  /** `GET key`: the value while the entry is live, nothing otherwise. */
  function Get(store: Store, key: string, now: int): (r: Option<string>)
    ensures r.Some? <==> Live(store, key, now)
    ensures r.Some? ==> r.value == store[key].code
  {
    if Live(store, key, now) then Some(store[key].code) else None
  }

  /** `SET key value EX ttl` at time `now`: replaces any earlier entry. */
  function SetEx(store: Store, key: string, value: string, ttl: int, now: int): (s: Store)
    ensures s.Keys == store.Keys + {key}
    ensures s[key] == Entry(value, now + ttl)
    ensures s - {key} == store - {key}
  {
    store[key := Entry(value, now + ttl)]
  }

  /** A signup key is never a reset key, whatever the two emails. */
  lemma NamespacesDisjoint(a: string, b: string)
    ensures SignupKey(a) != ResetKey(b)
  {
    assert SignupKey(a)[0] == 'o';
    assert ResetKey(b)[0] == 'p';
  }

  /** Different emails get different signup keys. */
  lemma SignupKeyInjective(a: string, b: string)
    ensures SignupKey(a) == SignupKey(b) ==> a == b
  {
    if SignupKey(a) == SignupKey(b) {
      assert a == SignupKey(a)[4..];
      assert b == SignupKey(b)[4..];
    }
  }

  /** Different emails get different reset keys. */
  lemma ResetKeyInjective(a: string, b: string)
    ensures ResetKey(a) == ResetKey(b) ==> a == b
  {
    if ResetKey(a) == ResetKey(b) {
      assert a == ResetKey(a)[12..];
      assert b == ResetKey(b)[12..];
    }
  }
}
