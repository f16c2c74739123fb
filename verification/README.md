# cipher-share: a Dafny model of its deterministic core

cipher-share lets a sender upload a file encrypted for one recipient. Around the
browser's cryptography sits a small amount of deterministic logic. This project
models that logic as pure Dafny functions, with the clock, the random draw, the
session, the database and the outcome of the e-mail call passed in as parameters. It covers:

- **OTP challenges** (`OtpStore`, `OtpRoutes`, `OtpService`). One Redis keyspace
  holds two namespaces: `otp:<email>` for signup and `passwordOtp:<email>` for
  password reset. Each issue route draws a code in 100000..999999 and writes its
  decimal text with a 300-second lifetime, replacing any earlier code. Each verify
  route reads the key and answers "not found or expired", "incorrect otp" or
  success. Verification never deletes the code. The store is a
  `map<string, Entry>` with an absolute expiry, and an entry is live while
  `now < expiresAt` (time in seconds). `OtpService` runs the four routes as one
  state machine over a trace of timed requests.
- **File expiry sweep** (`FileModel`, `FileExpiry`). One run of the scheduled
  `updateMany` at a given `now` (milliseconds). Every ACTIVE row created strictly
  before `now − 86 400 000` becomes EXPIRED, and the sweep reports how many rows
  changed.
- **Keys route** (`KeysRoute`). POST is the decision table from
  (session, email, lookup outcome) to status and body. PUT is an update of a user
  directory map.
- **Transfer page rules** (`TransferPage`). These are the passphrase check before
  key generation, the upload guards, how the keys route's status is read, the
  "ACTIVE, then reversed" download list, and the unit chosen by the size formatter.
- **File-name shortening** (`FileListItem`). Long names are cut to 15 + "..." + 6
  UTF-16 code units.

Where the intended design and the code differ, the model follows the code:

- The code has no signed password-reset token. `app/api/auth/reset-password/route.ts`
  changes the password without any OTP or token check, so no token gate is modelled.
- Verification is a single read and comparison. It does not consume the code.
- Verify failures are HTTP replies, not exceptions. Signup "not found" is 401, but
  reset "not found" is 403.
- The keys lookup answers 401 when there is no user, and 404 when the user exists
  but has no public key.
- The reset issue route writes the code before it checks that the account exists.
  An unknown email therefore gets a 404 and still has a live code.

Decimal text of integers (`Decimal`) and an `Option` type (`Options`) are shared helpers.

## Model

| member | source | states |
|---|---|---|
| OtpRoutes.DrawCode | app/api/auth/send-otp/route.ts:8 | every integer draw in [0, 900000) gives a code in [100000, 999999] |
| OtpRoutes.DrawCodeBijective | app/api/auth/send-otp/forgot-password/route.ts:11 | every six-digit code comes from exactly one draw, so the draw covers the whole code range |
| OtpRoutes.CodeText | app/api/auth/send-otp/route.ts:8-9 | the stored value is exactly six decimal digits without a leading zero, and reads back as the drawn code |
| OtpRoutes.CodeTextInjective | app/api/auth/send-otp/route.ts:9 | two draws store the same text iff they are the same draw |
| Decimal.NatToText | app/api/auth/send-otp/route.ts:9 | the text Redis stores for a number is a non-empty string of digits, starting with '0' only for zero |
| Decimal.ValueOfNatToText | app/api/auth/send-otp/route.ts:9 | the decimal text of a number reads back as that number |
| Decimal.NatToTextLength | app/api/auth/send-otp/route.ts:8 | a number between 10^(k-1) and 10^k is written with k digits |
| OtpStore.Get | app/api/auth/verify-otp/route.ts:6 | GET returns the stored value exactly while the entry is live, and nothing once it has expired |
| OtpStore.SetEx | app/api/auth/send-otp/route.ts:9 | SET with EX stores the value until now + ttl, replaces any earlier value, and leaves every other key as it was |
| OtpStore.NamespacesDisjoint | app/api/auth/verify-otp/forgot-password/route.ts:6 | no signup key equals any reset key, whatever the two emails |
| OtpStore.SignupKeyInjective | app/api/auth/send-otp/route.ts:9 | different emails have different signup keys |
| OtpStore.ResetKeyInjective | app/api/auth/send-otp/forgot-password/route.ts:12 | different emails have different reset keys |
| OtpRoutes.SendSignupOtp | app/api/auth/send-otp/route.ts:6-21 | the new code is live under otp:email for exactly 300 s, whether or not the mail call throws; no other key changes; the status is 200 iff the mail call returns without throwing, else 500 |
| OtpRoutes.SendResetOtp | app/api/auth/send-otp/forgot-password/route.ts:9-49 | the new code is live under passwordOtp:email for 300 s in every outcome; no other key changes; missing account gives 404, database error 500, a thrown mail call 500; 200 iff the account exists and the mail call returns without throwing |
| OtpRoutes.Decide | app/api/auth/verify-otp/route.ts:7-18 | success iff a non-empty stored value is strictly equal to the supplied value; "not found" iff there is no value or it is empty |
| OtpRoutes.VerifySignupOtp | app/api/auth/verify-otp/route.ts:4-21 | 200 iff the live otp:email code equals the supplied text; no live entry gives 401 "otp not found or expired"; a live, different value gives 401 "incorrect otp" |
| OtpRoutes.VerifyResetOtp | app/api/auth/verify-otp/forgot-password/route.ts:4-21 | 200 iff the live passwordOtp:email code equals the supplied text; no live entry gives 403; a live, different value gives 401 "incorrect otp" |
| OtpService.Handle | app/api/auth/verify-otp/route.ts:6-20 | a verify request leaves the store unchanged; an issue request changes only the key it writes |
| OtpService.RunConcatenation | app/api/auth/verify-otp/route.ts:6-20 | running two traces in turn leaves the same store as running their concatenation |
| OtpService.UnwrittenKeyUnchanged | app/api/auth/send-otp/route.ts:9 | a key that no request in a trace writes keeps its entry, or stays absent, through the whole trace |
| OtpService.VerificationsAreReadOnly | app/api/auth/verify-otp/forgot-password/route.ts:6-20 | any number of verify requests leaves the store exactly as it was, so no code is consumed |
| OtpService.CodeVerifiesUntilItLapses | app/api/auth/verify-otp/route.ts:6-20 | once issued, a signup code verifies at any moment within its 300 s, after any trace of other requests that does not re-issue it |
| OtpService.SignupCodeExpires | app/api/auth/verify-otp/route.ts:6-12 | 300 s or more after issue, even the right code gets 401 "otp not found or expired" |
| OtpService.ResetCodeExpires | app/api/auth/verify-otp/forgot-password/route.ts:6-12 | 300 s or more after issue, a reset code gets 403 "otp not found or expired" |
| OtpService.SignupReissueReplacesCode | app/api/auth/verify-otp/route.ts:13-18 | after a second signup issue, the first code gets 401 "incorrect otp" and the second verifies |
| OtpService.ResetReissueReplacesCode | app/api/auth/send-otp/forgot-password/route.ts:12 | after a second reset issue, the first reset code gets 401 "incorrect otp" and the second verifies |
| OtpService.SignupVerifyReadsOnlyItsKey | app/api/auth/verify-otp/route.ts:6 | two stores that agree on otp:email give the same signup verification reply |
| OtpService.ResetIssueInvisibleToSignupVerify | app/api/auth/send-otp/forgot-password/route.ts:12 | issuing a reset code never changes a signup verification reply, for any email |
| OtpService.SignupIssueInvisibleToResetVerify | app/api/auth/send-otp/route.ts:9 | issuing a signup code never changes a reset verification reply, for any email |
| OtpService.ResetCodeNeverPassesSignup | app/api/auth/verify-otp/route.ts:6-12 | a live reset code is refused by signup verification when no signup code is live |
| OtpService.UnknownAccountStillGetsLiveCode | app/api/auth/send-otp/forgot-password/route.ts:12-28 | an email with no account gets 404, yet the code just stored for it verifies on the reset route |
| OtpService.FailedDeliveryStillStoresCode | app/api/auth/send-otp/route.ts:9-19 | a mail call that throws answers 500, yet the new code verifies |
| FileExpiry.Expire | cron/expireFiles.ts:9-17 | a row ends up EXPIRED iff it was EXPIRED or was created more than 24 h before now; only the status changes; the result is no longer stale |
| FileExpiry.Sweep | cron/expireFiles.ts:9-18 | the table keeps its length and order; each row is updated by the rule; the reported count equals both the number of changed rows and the number of stale rows; no row of the result is stale, so a second sweep at the same time changes nothing |
| FileExpiry.NothingStaleNothingCounted | cron/expireFiles.ts:9-17 | on a table with no stale row, the sweep changes no row and reports 0 |
| FileExpiry.ExactlyOneDayOldStaysActive | cron/expireFiles.ts:11 | an ACTIVE file created exactly 24 h before now is not expired |
| KeysRoute.Post | app/api/keys/route.ts:9-52 | no session gives 403 before the email is looked at; a missing or empty email gives 400; no user gives 401; a database error gives 500; a user with a non-empty key gives 200 with exactly that key; a user without one gives 404 |
| KeysRoute.LookupIn | app/api/keys/route.ts:24-28 | a lookup finds no user iff the email is not in the directory, and otherwise returns that user's key |
| KeysRoute.Put | app/api/keys/route.ts:55-88 | without a session nothing changes and the reply has the default status; an empty field gives 400 and no change; an unknown email gives 500 and no change; otherwise both keys are set for that user and nothing else in the directory changes |
| KeysRoute.PutThenPostReturnsKey | app/api/keys/route.ts:68-77 | after a successful PUT, POST for that email returns 200 with the stored public key |
| KeysRoute.PutLeavesOtherLookups | app/api/keys/route.ts:69-77 | a PUT never changes what a lookup of another email finds |
| TransferPage.KeyGenGuard | app/transfer/page.tsx:169-176 | key generation proceeds iff the passphrase has at least 10 units and equals its confirmation; the length check comes first |
| TransferPage.CheckRecipient | app/transfer/page.tsx:227-249 | the recipient is valid iff the status is 200; 401 and 404 get their messages; other thrown statuses and failures without a status get "Internal Server Error" |
| TransferPage.RecipientCheckFollowsKeysRoute | app/transfer/page.tsx:227-249 | read against the keys route, the check accepts iff the recipient has published a key; a missing user, a missing key and a database error each get their message |
| TransferPage.UploadGuard | app/transfer/page.tsx:251-266 | upload proceeds iff a file is chosen, it is at most 1000·1024·1024 bytes, the lookup answered 200 and the sender is not the recipient; the self-send check only applies after a successful lookup |
| TransferPage.OversizedIgnoresLookup | app/transfer/page.tsx:254-260 | an oversized file is refused the same way whatever the lookup or recipient |
| TransferPage.Actives | app/transfer/page.tsx:402-404 | every kept row is ACTIVE, and a row is kept iff it is an ACTIVE row of the input |
| TransferPage.ActivesAppend | app/transfer/page.tsx:402-404 | filtering a concatenation is the concatenation of the filtered parts, so the filter keeps input order and multiplicity |
| TransferPage.ActivesSnoc | app/transfer/page.tsx:402-404 | a row added at the end is kept, after all earlier kept rows, exactly when it is ACTIVE |
| TransferPage.Reverse | app/transfer/page.tsx:406 | the result has the same length, and position i holds the element at position n-1-i |
| TransferPage.DownloadList | app/transfer/page.tsx:396-406 | every row shown is ACTIVE; a row is shown iff it is an ACTIVE row of the server's list; reversing the list gives back the ACTIVE rows in server order |
| TransferPage.ActivesKeepOrder | app/transfer/page.tsx:402-404 | filtering a list ordered oldest first leaves it ordered oldest first |
| TransferPage.DownloadListNewestFirst | app/transfer/page.tsx:402-406 | when the server lists oldest first, the download list shows newest first |
| TransferPage.FormatSize | app/transfer/page.tsx:555-571 | GB iff at least 2^30 bytes; MB iff from 2^20 to below 2^30; KB iff from 2^10 to below 2^20; otherwise the exact count followed by " B" |
| TransferPage.FormatSizeMonotone | app/transfer/page.tsx:561-571 | a larger size is never shown in a smaller unit |
| TransferPage.ExactBytesReadBack | app/transfer/page.tsx:569 | below 1 KiB, the number shown reads back as the exact byte count |
| FileListItem.FormatName | components/FileListItem.tsx:14-20 | names of at most 20 units are unchanged; longer names become their first 15 units, "...", and their last 6 units, 24 units in all, which is longer than a 21–23-unit input |
| FileListItem.FormatNameIdempotent | components/FileListItem.tsx:14-20 | shortening a shortened name changes nothing |

## Left out

- Cryptography is not modelled: key-pair generation, passphrase key wrapping, and AES-GCM / RSA-OAEP encryption and decryption (`lib/crypto.ts` and the encrypt/decrypt code of the transfer page). These are calls into the W3C Web Cryptography API. Only an axiom could state their behaviour.
- Password reset itself (`app/api/auth/reset-password/route.ts`) is not modelled. It updates the password with no OTP or token check, and bcrypt hashing is opaque.
- Redis, Prisma, S3 pre-signed URLs, Resend e-mail and next-auth sessions are external services. They appear only as the store map, the record sequence, the directory map, a lookup outcome and booleans.
- OtpRoutes.DrawCode: `Math.random` and the floating-point arithmetic around it are replaced by an integer draw in [0, 900000). The model does not show that the floating-point expression stays below 1000000.
- OtpRoutes.VerifySignupOtp: a supplied `otp` that is not a JSON string is modelled as one case, `NonText`. It never equals the stored text, which matches strict `!==`.
- The email in the OTP routes is a string. The key text a non-string JSON email would produce (`otp:undefined` and so on) is not modelled.
- KeysRoute.Post: the email is a present-or-absent string. The truthiness of other JSON types is not modelled.
- TransferPage.FormatSize: the rounded number printed beside GB, MB and KB (`toFixed` on a float division) is not modelled. Only the unit choice and the exact text below 1 KiB are stated.
- OtpRoutes.SendSignupOtp: Redis is treated as infallible. A rejected `SET`, which happens outside any `try`, would end the request with 500 before any code is stored or mail is sent; this path is not modelled.
- OtpRoutes.SendResetOtp: the same holds for its `SET`. A Redis failure (500, nothing stored, no account check) is not modelled.
- OtpRoutes.VerifySignupOtp: a rejected Redis `GET` (also on the reset verify route) would answer 500; this path is not modelled.
- OtpRoutes.SendSignupOtp: `sendResolved` means the mail call returned rather than threw. A provider that reports a rejected message in its returned value still yields 200, on both issue routes.
- OtpService.SignupCodeExpires: time is in whole seconds and an entry counts as expired from `expiresAt` on. Redis keeps millisecond expiry times and expires a key only once the clock is strictly past that millisecond, so a GET at exactly 300.000 s still returns the code; this one-millisecond boundary is not modelled (the same for OtpService.ResetCodeExpires).
- KeysRoute.Put: `prisma.user.update` can also fail on a database outage, or when a truthy non-string key is sent, with the same 500. Only the unknown-email failure is modelled, and the fields are present-or-absent strings.
- TransferPage.FormatSize: the input is the integer `BigInt(sizeInBytes)` would produce. The exception `BigInt` throws on text that is not an integer is not modelled.
- The date formatter on the transfer page depends on locale and time zone, so it is not modelled.
- The node-cron schedule is not modelled; one sweep at a given time is. Races between concurrent OTP issue and verify on Redis are not modelled either.
- Real Redis evicts expired keys. The model leaves them in the map, where `Get` no longer sees them. The two are indistinguishable through GET.
- The server's download list has no `orderBy`. The newest-first property is therefore stated only for a list that arrives oldest first.
- The CRUD routes are not modelled: register, file, file download, private key, profile update, update, file upload and pre-signed URL. The UI-only pages and components are left out too.
- The upload message says "100 MB" while the limit applied is 1000·1024·1024 bytes. The model keeps both, as the code has them.
