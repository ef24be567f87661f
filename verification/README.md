# NetSuite MCP proxy: the OAuth2 token lifecycle in Dafny

The proxy holds one OAuth2 token record (`tokenStore`). It fills the record
through the `authorization_code` grant when the browser comes back to
`/oauth/callback` (section 4.1.3 of RFC 6749). It renews the record through
the `refresh_token` grant (section 6 of RFC 6749) when the token has less
than 60 seconds left. Every proxied call (`/sse`, `/tools/list`,
`/tools/call`) passes through one gate first: 401 without an access token,
500 when the refresh fails, otherwise one upstream request carrying
`Bearer <access_token>`, whose answer goes back to the client.

This project models that logic as pure transitions over the record. The
clock readings and the replies of the token endpoint and of the upstream API
are parameters. Each operation returns the new record, the token request it
made, the upstream request it made and the answer.

- `wrappers.dfy` — `Option` (a property that may be `undefined`) and `Result`.
- `js_value.dfy` — module `JsValue`: the JavaScript semantics the record depends on.
  It covers JSON values, truthiness (`!x`, `x || d`), property reads,
  `String(v)`, `Number(v)`, the `+` operator with a number on its left, and
  object spread (`{...v}`, right-biased, so later keys win).
- `credentials.dfy` — module `Credentials`: `ExpiresSoon`, the expiry
  stamp, `ExchangeCode` (`exchangeCodeForTokens`) and `RefreshIfNeeded`
  (`refreshIfNeeded`).
- `proxy.dfy` — module `Proxy`: `Handle`, the gate shared by `/sse` and
  `proxyJson`; `Relay`; `Callback` (the callback route); and `Serve`, which
  runs a sequence of proxied calls one after another.
- `expiry_finding.dfy` — module `ExpiryFinding`: the `expires_in` string
  defect (see Findings).

The clock: the code calls `nowSec()` separately for the freshness test, for
`obtained_at` and for `expires_at`. `Credentials.Clock` carries these three
readings. They are independent integers, and no order between them is
assumed.

The stamping choice: `ExchangeCode`, `RefreshIfNeeded`, `Handle`,
`Callback` and `Serve` take a `Credentials.Stamping`. With `AsWritten` they
stamp `expires_at` exactly as the code does, `nowSec() + (tok.expires_in ||
1800)` with JavaScript's `+`. With `Corrected` they stamp the numeric expiry
of the Findings section. Every contract and lemma holds for both choices,
except where one names its choice.

The record is the whole `tokenStore` value. It is null before the first
authorization and can hold any JSON after a reload. A field read on a value
that is not an object gives `undefined`, as `tokenStore?.access_token` does.

Three behaviours of the code worth noting:
- When the upstream stream opens (`ok` with a body), `/sse` pipes it with
  Express's default status 200. It does not copy the upstream's 2xx status.
  The upstream status is relayed only when the stream does not open.
- A token response whose JSON body is `null` fails on `tok.expires_in`.
  That happens before the record is assigned, so the record stays as it was
  and the error surfaces (`NullToken`).
- Reading a failed upstream stream's text may itself fail. In that case
  `/sse` sends "Upstream stream error", and a tool call answers 500.

## Model

| member | source | states |
|---|---|---|
| Credentials.ExpiresSoon | server.js:67 | stale when the access token or `expires_at` is missing or falsy; with both truthy and an `expires_at` that reads as a number (a number, a numeric string, `true` or a numeric array), stale exactly when that number minus `now` is below 60; never stale when `expires_at` does not read as a number |
| Credentials.MarginIsExact | server.js:67 | 60 seconds left is fresh and 59 seconds left is stale: the margin is an exact boundary |
| Credentials.StalenessPersists | server.js:67 | a record that is stale at some time is still stale at every later time |
| Credentials.ExpiryAsWritten | server.js:93 | the code's `nowSec() + (tok.expires_in \|\| 1800)`: `now + 1800` when `expires_in` is missing or falsy, and a string exactly when the lifetime is a truthy string, array or object |
| Credentials.Lifetime | server.js:93 | the granted lifetime is never 0; it is 1800 when `expires_in` is missing or falsy, the number itself when it is a nonzero number, and the digits' value when it is a nonzero decimal string |
| Credentials.Expiry | server.js:93 | the corrected `expires_at` is always a number: `now + 1800` for a missing, falsy or non-numeric `expires_in`, `now + n` for a nonzero number `n`, and `now` plus the digits' value for a nonzero decimal string |
| Credentials.ExpiryAgreesOnNumbers | server.js:93 | the corrected stamp equals the code's stamp unless `expires_in` is a truthy string, array or object |
| Credentials.ReadToken | server.js:84-89 | a token reply is accepted exactly when the request succeeded with `ok` and a non-null JSON body; a reply that is not ok is refused with its status and text |
| Credentials.Merge | server.js:120-125 | the record after an accepted reply: keys from the old record, the response and the two stamps; stamps win over the response, the response wins over old fields, and old fields the response omits survive |
| Credentials.StampedMergeIsUnique | server.js:120-125 | that description of the merged record determines it completely |
| Credentials.ExchangeCode | server.js:69-96 | posts `authorization_code` with the code; on success the record is built from the response and the stamps alone, with the chosen `expires_at` stamp; on any failure the record is unchanged and the error is raised |
| Credentials.RefreshIfNeeded | server.js:98-127 | no token request exactly when the refresh token is falsy or the record is fresh; otherwise posts `refresh_token` with the stored token; on failure the record is unchanged and the error raised; on success the response is merged into the old record, with the chosen `expires_at` stamp |
| Credentials.ExchangeIgnoresPriorRecord | server.js:90-94 | a successful exchange gives the same record whatever record it replaces |
| Credentials.ExchangeDropsOldRefreshToken | server.js:90-94 | after a successful exchange the record's `refresh_token` is the response's, and there is none when the response has none, whatever the old record held |
| Credentials.RefreshKeepsRefreshToken | server.js:120-125 | after a refresh that raised no error, the record's `refresh_token` is the response's when the response has one, and the old one otherwise |
| Credentials.FailedRefreshIsRetried | server.js:114-117 | after a failed refresh, a later refresh makes the same token request again |
| Credentials.RefreshedRecordIsFresh | server.js:119-125 | after a successful refresh that keeps a truthy access token, the record is fresh until 60 seconds before `now + lifetime`, and no second refresh is made in that window; for the code's own stamp this needs a lifetime that is not a truthy string, array or object |
| JsValue.AddToNumber | server.js:93 | JavaScript `n + v` gives a string exactly when `v` is a string, array or object, namely `n`'s numeral followed by `String(v)`; for null, a boolean or a number it gives the number `n + Number(v)` |
| JsValue.Spread | server.js:90-91 | `{...v}` copies an object's fields; for an array or a string its keys are exactly the numerals of the positions, holding the elements or the one-character strings; null, booleans and numbers give no keys |
| JsValue.DecimalRoundTrip | server.js:93 | reading back an integer's numeral gives the integer |
| Proxy.Relay | server.js:165-202 | stream: piped exactly when the upstream is ok with a body, otherwise the upstream status with its text, or "Upstream stream error" when that text is empty or unreadable; tool call: the upstream status and text verbatim, or 500 when the text cannot be read; an unreachable upstream is 500 |
| Proxy.Handle | server.js:154-206 | 401 exactly when the access token is falsy, with no token request, no forward and the record unchanged; otherwise the record and token request are the refresh's; a refresh error gives 500 carrying that error, with no forward, and a 500 without a forward comes only from a refresh error; otherwise one forward with `Bearer` and the current access token, and the upstream answer relayed |
| Proxy.StatusCode | server.js:144-205 | the client's status: the upstream's own status for a relayed reply, 200 for saved tokens and for an opened stream, 400 for a missing code, 401 for a missing credential, and 500 exactly for a caught error |
| Proxy.UpstreamRequest | server.js:159-199 | the forward carries the given bearer credential; the stream is `GET /stream` without a body; a tool call is a `POST` to its path with the request body when it is truthy and `{}` otherwise |
| Proxy.Callback | server.js:141-151 | 400 with no token request exactly when the code is missing or falsy; otherwise the code is exchanged, the answer is 200 exactly when the exchange succeeds, and a failed exchange gives 500 with the record unchanged |
| Proxy.RoutesShareTheGate | server.js:154-163 | the stream route and the tool routes leave the same record, make the same token request and send the same bearer credential |
| Proxy.FreshTokenIsForwardedAsIs | server.js:189-196 | with a fresh record the call makes no token request and forwards the stored access token |
| Proxy.TokenFaultIsRetried | server.js:180-183 | a call that answered 500 on its refresh leaves a record on which the next call makes the same refresh request |
| Proxy.AuthorizationPersists | server.js:156 | once the record holds a truthy access token, a sequence of proxied calls never loses it (so none answers 401), unless a refresh response supplies a falsy one |
| ExpiryFinding.StringLifetimeConcatenates | server.js:93 | in the code, a digit-string lifetime `s` gives `expires_at` = numeral(now) followed by `s`, whose numeric value is `now * 10^\|s\| + s` |
| ExpiryFinding.AsWrittenStringLifetimeNeverExpires | server.js:67 | in the code, such a record is not stale at any time from `now + lifetime` up to `10 * now - 60`; the corrected record is stale over that whole span |
| ExpiryFinding.ExchangedStringLifetimeNeverExpires | server.js:90-94 | in the code, a code exchange whose response gives `expires_in` as a digit string leaves a record that is not stale from `now + lifetime` up to `10 * now - 60`; the corrected exchange leaves a stale one |
| ExpiryFinding.ThirtySixHundredAsString | server.js:93 | granted at 1700000000 with `"3600"`, the code's record still reads as fresh at 1700003600, and the corrected record reads as stale |

## Left out

- Persistence: `loadTokens`/`saveTokens` read and write a file with `JSON.parse`/`JSON.stringify`. Saving is a side effect that never changes the in-memory record (its failure is only logged), so the model omits it. The record at startup is any `Value`.
- Express wiring, the cookie session, `app.listen`, `/health` and the `/oauth/start` redirect: routing and URL templating with no decisions of their own.
- Configuration: environment parsing, the exit on missing settings, and the `AUTH_URL`/`TOKEN_URL`/`MCP_BASE` templates. The client id, secret and redirect URI in the token form are configuration, so `TokenRequest` records only the grant type and the code or refresh token.
- Network I/O: every `fetch` is an input reply (`TokenReply`, `UpstreamReply`). For a token reply, the body text and its JSON parse are independent inputs.
- Piping the SSE body and closing it on an upstream stream error: the model stops at `Streaming` (the stream opened).
- Error message texts ("Proxy error: …", console logging): a failure is modelled by its kind (`TokenError`, `Fault`) and its status code.
- Concurrency: the code does not serialise refreshes, and the model handles one request at a time (`Proxy.Serve`).
- JsValue.StringToNumber: only "", and an optionally signed run of decimal digits, read as numbers. Whitespace trimming, fractions, exponents, hex literals and "Infinity" read as NaN here, but as numbers in JavaScript.
- JsValue.Value: numbers are unbounded integers. Fractional JSON numbers, IEEE-754 rounding and exponent-form printing of magnitudes of 10^21 and more are not modelled.
- JsValue.Get: only own data properties are read. Inherited properties (such as `toString` on any object) are not modelled, since the code reads only token field names.
- JsValue.Spread: a string is split into Unicode scalar values (Dafny `char`), whereas JavaScript splits it into UTF-16 code units, so a character outside the Basic Multilingual Plane gives one key here and two in JavaScript.
- Credentials.RefreshedRecordIsFresh: with the code's own stamp it is stated only for a lifetime that is not a truthy string, array or object, because for such a lifetime the record stays fresh far past its expiry (see Findings).

## Findings

| source | as written | input that shows it | evidently intended | confidence | as-written member | corrected member |
|---|---|---|---|---|---|---|
| server.js:93 (also server.js:124) | `expires_at: nowSec() + (tok.expires_in \|\| 1800)` concatenates when `expires_in` is a JSON string, so `expires_at` becomes `"17000000003600"`. `expiresSoon` then reads it as about 1.7e13, so the token never looks stale and is never refreshed | a token response `{"access_token": "a", "expires_in": "3600"}` accepted at 1700000000; at 1700003600 `expiresSoon` is false | `expires_at = now + Number(expires_in)`, with 1800 when that is 0 or NaN | medium, not executed | ExpiryFinding.ExchangedStringLifetimeNeverExpires | Credentials.Expiry |

`ExpiryFinding.ExchangedStringLifetimeNeverExpires` states, of
`ExchangeCode` with the code's own stamp (`AsWritten`) and with the
corrected one (`Corrected`), that the first record is still fresh once the
lifetime has run out and the second is stale. `ExpiryFinding.AsWrittenStringLifetimeNeverExpires` states the
same for any record stamped that way, and
`ExpiryFinding.ThirtySixHundredAsString` works through the concrete input in
the table. `Credentials.ExpiryAgreesOnNumbers` shows that the two stamps are
equal for every missing, falsy, boolean or numeric `expires_in`. So for token
endpoints that send `expires_in` as a number, the code and the corrected
model write the same records.
