/**
  /api/keys. POST answers whether a user has published a public key, and
  returns it; PUT stores a user's public key and passphrase-wrapped private
  key. The session and the database are parameters: a flag for the
  session, a lookup outcome or a user directory for the database.
 */
module KeysRoute {
  import opened Options

  /** JavaScript truthiness of an optional string field: present and non-empty. */
  predicate Truthy(field: Option<string>) {
    field.Some? && field.value != ""
  }

  /** Outcome of `prisma.user.findUnique({ where: { email } })`. */
  datatype Lookup = NoUser | User(publicKey: Option<string>) | DbError

  /** A JSON reply body: an object with some of these fields, or a bare JSON string. */
  datatype Body =
    | Json(success: Option<bool>, message: Option<string>, publicKey: Option<string>)
    | JsonText(text: string)

  datatype KeysReply = KeysReply(status: int, body: Body)

  /** Next.js' status when a handler does not set one. */
  const DEFAULT_STATUS: int := 200

  /** POST /api/keys. */
  function Post(hasSession: bool, email: Option<string>, lookup: Lookup): (r: KeysReply)
    ensures !hasSession ==> r == KeysReply(403, Json(None, Some("not authorized"), None))
    ensures hasSession && !Truthy(email) ==> r == KeysReply(400, Json(None, Some("email missing"), None))
    ensures r.status == 200 <==> hasSession && Truthy(email) && lookup.User? && Truthy(lookup.publicKey)
    ensures r.status == 200 ==> r.body == Json(Some(true), None, lookup.publicKey)
    ensures hasSession && Truthy(email) ==>
      (r.status == 401 <==> lookup == NoUser)
      && (r.status == 500 <==> lookup == DbError)
      && (r.status == 404 <==> lookup.User? && !Truthy(lookup.publicKey))
    ensures r.status in {200, 400, 401, 403, 404, 500}
  {
    if !hasSession then KeysReply(403, Json(None, Some("not authorized"), None))
    else if !Truthy(email) then KeysReply(400, Json(None, Some("email missing"), None))
    else
      match lookup
      case DbError => KeysReply(500, Json(Some(false), Some("Error reaching the database"), None))
      case NoUser => KeysReply(401, Json(None, Some("User doesn't exist"), None))
      case User(key) =>
        if Truthy(key) then KeysReply(DEFAULT_STATUS, Json(Some(true), None, key))
        else KeysReply(404, Json(Some(false), None, None))
  }

  /** The columns of a user row this route touches, plus one it must not. */
  datatype Account = Account(passwordHash: string, publicKey: Option<string>, privateKey: Option<string>)

  /** The `user` table, keyed by its unique email. */
  type Directory = map<string, Account>

  /** `findUnique` against a reachable directory. */
  function LookupIn(dir: Directory, email: string): (l: Lookup)
    ensures l == NoUser <==> email !in dir
    ensures l.User? ==> l.publicKey == dir[email].publicKey
    ensures l != DbError
  {
    if email in dir then User(dir[email].publicKey) else NoUser
  }

  datatype PutOutcome = PutOutcome(dir: Directory, reply: KeysReply)

  /** PUT /api/keys: `prisma.user.update` fails, giving 500, when no row has that email. */
  function Put(hasSession: bool, dir: Directory, email: Option<string>,
               publicKey: Option<string>, privateKey: Option<string>): (out: PutOutcome)
    ensures !hasSession ==> out == PutOutcome(dir, KeysReply(DEFAULT_STATUS, JsonText("Not authorised")))
    ensures hasSession && !(Truthy(email) && Truthy(publicKey) && Truthy(privateKey)) ==>
      out == PutOutcome(dir, KeysReply(400, Json(Some(false), Some("Inputs are empty"), None)))
    ensures hasSession && Truthy(email) && Truthy(publicKey) && Truthy(privateKey) && email.value !in dir ==>
      out == PutOutcome(dir, KeysReply(500, Json(Some(false), Some("Unknown error"), None)))
    ensures out.dir != dir ==> hasSession && Truthy(email) && Truthy(publicKey) && Truthy(privateKey)
    ensures hasSession && Truthy(email) && Truthy(publicKey) && Truthy(privateKey) && email.value in dir ==>
      && out.dir.Keys == dir.Keys
      && out.dir[email.value] == dir[email.value].(publicKey := publicKey, privateKey := privateKey)
      && out.dir - {email.value} == dir - {email.value}
      && out.reply == KeysReply(DEFAULT_STATUS, Json(Some(true), Some("Update seccessfull"), None))
  {
    if !hasSession then PutOutcome(dir, KeysReply(DEFAULT_STATUS, JsonText("Not authorised")))
    else if !Truthy(email) || !Truthy(publicKey) || !Truthy(privateKey) then
      PutOutcome(dir, KeysReply(400, Json(Some(false), Some("Inputs are empty"), None)))
    else if email.value !in dir then
      PutOutcome(dir, KeysReply(500, Json(Some(false), Some("Unknown error"), None)))
    else
      var account := dir[email.value];
      PutOutcome(dir[email.value := account.(publicKey := publicKey, privateKey := privateKey)],
                 KeysReply(DEFAULT_STATUS, Json(Some(true), Some("Update seccessfull"), None)))
  }

  /** Once a PUT has succeeded, a POST for that email returns exactly the stored public key. */
  lemma PutThenPostReturnsKey(dir: Directory, email: string, pub: string, priv: string)
    requires email != "" && pub != "" && priv != "" && email in dir
    ensures var after := Put(true, dir, Some(email), Some(pub), Some(priv)).dir;
            Post(true, Some(email), LookupIn(after, email)) == KeysReply(200, Json(Some(true), None, Some(pub)))
  {
  }

  /** A PUT leaves what POST answers for every other email unchanged. */
  lemma PutLeavesOtherLookups(hasSession: bool, dir: Directory, email: Option<string>, pub: Option<string>,
                              priv: Option<string>, other: string)
    requires email != Some(other)
    ensures LookupIn(Put(hasSession, dir, email, pub, priv).dir, other) == LookupIn(dir, other)
  {
    var after := Put(hasSession, dir, email, pub, priv).dir;
    if after != dir {
      assert other in after <==> other in dir;
    }
  }
}
