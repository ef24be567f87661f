/** The credential manager of the proxy: the single token record, the
    freshness test, the `authorization_code` grant (section 4.1.3 of RFC 6749)
    and the `refresh_token` grant (section 6 of RFC 6749), each as a pure
    transition from the record before to the record after.

    The record is the whole `tokenStore` value, which is null before the first
    authorization and may hold any JSON after a reload; its fields are read
    with `Get`. The clock and the token endpoint's reply are inputs. */
module Credentials {
  import opened Wrappers
  import opened JsValue

  /** Seconds before `expires_at` at which a token already counts as stale. */
  const FreshnessMargin := 60

  /** Lifetime assumed when a token response gives none. */
  const DefaultLifetime := 1800

  /** The two fields every accepted token response is stamped with. */
  const StampKeys: set<string> := {"obtained_at", "expires_at"}

  /** The readings of `nowSec()` one token update takes, in program order:
      the freshness test, then `obtained_at`, then `expires_at`. */
  datatype Clock = Clock(check: int, obtained: int, expiry: int)

  // ---- Freshness -----------------------------------------------------------------

  /** `expires_at - now < 60` on a JavaScript number; NaN compares false. */
  predicate BelowMargin(expiresAt: Number, now: int) {
    expiresAt.Int? && expiresAt.i - now < FreshnessMargin
  }

  /** The token needs a refresh (or an authorization) before use: there is no
      access token, no expiry, or fewer than 60 seconds of life are left. An
      expiry that does not read as a number never counts as close. */
  function ExpiresSoon(store: Value, now: int): (soon: bool)
    ensures !TruthyField(Get(store, "access_token")) ==> soon
    ensures !TruthyField(Get(store, "expires_at")) ==> soon
    ensures TruthyField(Get(store, "access_token")) && TruthyField(Get(store, "expires_at"))
            && Get(store, "expires_at").value.Num?
            ==> (soon <==> Get(store, "expires_at").value.n - now < FreshnessMargin)
    ensures (TruthyField(Get(store, "access_token")) && TruthyField(Get(store, "expires_at"))
             && JsNumber(Get(store, "expires_at").value).Int?)
            ==> (soon <==> JsNumber(Get(store, "expires_at").value).i - now < FreshnessMargin)
    ensures (TruthyField(Get(store, "access_token")) && TruthyField(Get(store, "expires_at"))
             && JsNumber(Get(store, "expires_at").value).NaN?) ==> !soon
  {
    || !TruthyField(Get(store, "access_token"))
    || !TruthyField(Get(store, "expires_at"))
    || BelowMargin(JsNumber(Get(store, "expires_at").value), now)
  }

  /** The margin is an exact boundary: 60 seconds left is fresh, 59 is stale. */
  lemma MarginIsExact(fields: map<string, Value>, now: nat)
    requires TruthyField(Get(Obj(fields), "access_token"))
    ensures !ExpiresSoon(Obj(fields["expires_at" := Num(now + 60)]), now)
    ensures ExpiresSoon(Obj(fields["expires_at" := Num(now + 59)]), now)
  {
    assert Get(Obj(fields["expires_at" := Num(now + 60)]), "access_token") == Get(Obj(fields), "access_token");
    assert Get(Obj(fields["expires_at" := Num(now + 59)]), "access_token") == Get(Obj(fields), "access_token");
  }

  /** Once stale, a record stays stale as time passes. */
  lemma StalenessPersists(store: Value, now: int, later: int)
    requires now <= later
    ensures ExpiresSoon(store, now) ==> ExpiresSoon(store, later)
  {
  }

  // ---- Expiry stamp ----------------------------------------------------------------

  /** A lifetime JavaScript's `+` concatenates rather than adds: a truthy
      string, array or object. */
  predicate ConcatenatingLifetime(expiresIn: Option<Value>) {
    TruthyField(expiresIn) && (expiresIn.value.Str? || expiresIn.value.Arr? || expiresIn.value.Obj?)
  }

  /** `nowSec() + (tok.expires_in || 1800)` exactly as JavaScript evaluates it:
      a truthy string, array or object lifetime is concatenated to the
      numeral of `now` instead of being added to it. */
  function ExpiryAsWritten(now: int, expiresIn: Option<Value>): (r: Value)
    ensures !TruthyField(expiresIn) ==> r == Num(now + DefaultLifetime)
    ensures r.Str? <==> ConcatenatingLifetime(expiresIn)
  {
    AddToNumber(now, if TruthyField(expiresIn) then expiresIn.value else Num(DefaultLifetime))
  }

  /** The lifetime a token response grants: `Number(expires_in) || 1800`,
      that is the numeric reading of `expires_in`, and the default when it is
      absent, zero or not a number. */
  function Lifetime(expiresIn: Option<Value>): (r: int)
    ensures r != 0
    ensures !TruthyField(expiresIn) ==> r == DefaultLifetime
    ensures expiresIn.Some? && expiresIn.value.Num? && expiresIn.value.n != 0 ==> r == expiresIn.value.n
    ensures expiresIn.Some? && expiresIn.value.Str? && |expiresIn.value.s| > 0 && AllDigits(expiresIn.value.s)
            ==> r == (if Val(expiresIn.value.s) == 0 then DefaultLifetime else Val(expiresIn.value.s))
  {
    match JsNumberOf(expiresIn)
    case NaN => DefaultLifetime
    case Int(k) => if k != 0 then k else DefaultLifetime
  }

  /** The corrected `expires_at`: always a number; `now + 1800` for a missing,
      falsy or non-numeric lifetime, `now + n` for a nonzero number `n`, and
      `now` plus the digits' value for a nonzero decimal string. */
  function Expiry(now: int, expiresIn: Option<Value>): (r: Value)
    ensures r.Num?
    ensures !TruthyField(expiresIn) ==> r == Num(now + DefaultLifetime)
    ensures JsNumberOf(expiresIn).NaN? ==> r == Num(now + DefaultLifetime)
    ensures expiresIn.Some? && expiresIn.value.Num? && expiresIn.value.n != 0 ==> r == Num(now + expiresIn.value.n)
    ensures (expiresIn.Some? && expiresIn.value.Str? && |expiresIn.value.s| > 0 && AllDigits(expiresIn.value.s)
             && Val(expiresIn.value.s) != 0) ==> r == Num(now + Val(expiresIn.value.s))
  {
    Num(now + Lifetime(expiresIn))
  }

  /** The two definitions agree unless `expires_in` is a truthy string, array
      or object, so for every numeric or missing lifetime the corrected stamp
      is the one the code writes. */
  lemma ExpiryAgreesOnNumbers(now: int, expiresIn: Option<Value>)
    requires !ConcatenatingLifetime(expiresIn)
    ensures Expiry(now, expiresIn) == ExpiryAsWritten(now, expiresIn)
  {
  }

  /** Which `expires_at` stamp a token update writes: the code's own
      expression, or the corrected numeric one. */
  datatype Stamping = AsWritten | Corrected

  function StampedExpiry(stamping: Stamping, now: int, expiresIn: Option<Value>): Value {
    match stamping
    case AsWritten => ExpiryAsWritten(now, expiresIn)
    case Corrected => Expiry(now, expiresIn)
  }

  // ---- Token endpoint --------------------------------------------------------------

  /** What the token endpoint did with one POST: the request failed outright,
      or it answered with a status, a body text and, when that text is JSON,
      its parse. */
  datatype TokenReply =
    | EndpointDown
    | Reply(ok: bool, status: int, text: string, json: Option<Value>)

  /** Why a token update was abandoned (the promise rejected). */
  datatype TokenError =
    | Unreachable                        // `fetch` rejected
    | Rejected(status: int, text: string) // `!r.ok`
    | NotJson                            // `r.json()` rejected
    | NullToken                          // `tok.expires_in` on a null body

  /** The form a grant posts: its grant type and the code or refresh token. */
  datatype TokenRequest = TokenRequest(grantType: string, credential: string)

  datatype TokenCall = NoCall | Called(request: TokenRequest)

  /** One step of the credential manager: the record after it, the token
      request it made if any, and the error it raised if any. */
  datatype Transition = Transition(store: Value, call: TokenCall, error: Option<TokenError>)

  /** The token object an accepted reply carries, or why it was refused. */
  function ReadToken(reply: TokenReply): (r: Result<Value, TokenError>)
    ensures r.Success? <==> reply.Reply? && reply.ok && reply.json.Some? && !reply.json.value.Null?
    ensures r.Success? ==> r.value == reply.json.value
    ensures reply.Reply? && !reply.ok ==> r == Failure(Rejected(reply.status, reply.text))
  {
    match reply
    case EndpointDown => Failure(Unreachable)
    case Reply(ok, status, text, json) =>
      if !ok then Failure(Rejected(status, text))
      else if json.None? then Failure(NotJson)
      else if json.value.Null? then Failure(NullToken)
      else Success(json.value)
  }

  /** `r` is `{...base, ...tok, obtained_at, expires_at}`: its keys come from
      the old fields, the response and the stamps; the stamps win over
      everything, the response wins over the old fields, and an old field the
      response does not mention survives. */
  ghost predicate IsStampedMerge(r: map<string, Value>, base: map<string, Value>, tok: Value, clock: Clock, stamping: Stamping) {
    var body := Spread(tok);
    && (forall k :: k in r <==> k in base || k in body || k in StampKeys)
    && (forall k :: k in base && k !in body && k !in StampKeys ==> r[k] == base[k])
    && (forall k :: k in body && k !in StampKeys ==> r[k] == body[k])
    && r["obtained_at"] == Num(clock.obtained)
    && r["expires_at"] == StampedExpiry(stamping, clock.expiry, Get(tok, "expires_in"))
  }

  /** The merge description fixes the record completely. */
  lemma StampedMergeIsUnique(r1: map<string, Value>, r2: map<string, Value>, base: map<string, Value>,
                             tok: Value, clock: Clock, stamping: Stamping)
    requires IsStampedMerge(r1, base, tok, clock, stamping)
    requires IsStampedMerge(r2, base, tok, clock, stamping)
    ensures r1 == r2
  {
    var body := Spread(tok);
    assert r1.Keys == r2.Keys;
    forall k | k in r1
      ensures r1[k] == r2[k]
    {
      if k in StampKeys {
        assert k == "obtained_at" || k == "expires_at";
      } else if k in body {
      } else {
        assert k in base;
      }
    }
  }

  /** The record an accepted token response produces on top of `base`. */
  function Merge(base: map<string, Value>, tok: Value, clock: Clock, stamping: Stamping): (r: map<string, Value>)
    ensures IsStampedMerge(r, base, tok, clock, stamping)
  {
    base + Spread(tok) + map["obtained_at" := Num(clock.obtained),
                             "expires_at" := StampedExpiry(stamping, clock.expiry, Get(tok, "expires_in"))]
  }

  // ---- The two grants --------------------------------------------------------------

  /** `exchangeCodeForTokens(code)`: post the code; on an accepted reply the
      record becomes the response plus the stamps, whatever it held before;
      on any failure the record is untouched and the error is raised.
      `AsWritten` stamping is the code itself. */
  function ExchangeCode(store: Value, code: Value, clock: Clock, reply: TokenReply, stamping: Stamping): (r: Transition)
    ensures r.call == Called(TokenRequest("authorization_code", JsString(code)))
    ensures r.error.None? <==> ReadToken(reply).Success?
    ensures ReadToken(reply).Failure? ==> r.error == Some(ReadToken(reply).error) && r.store == store
    ensures ReadToken(reply).Success? ==>
              r.store.Obj? && IsStampedMerge(r.store.fields, map[], ReadToken(reply).value, clock, stamping)
  {
    var call := Called(TokenRequest("authorization_code", JsString(code)));
    match ReadToken(reply)
    case Failure(e) => Transition(store, call, Some(e))
    case Success(tok) => Transition(Obj(Merge(map[], tok, clock, stamping)), call, None)
  }

  /** `refreshIfNeeded()`: nothing happens unless there is a refresh token and
      the record expires soon; otherwise post the refresh token; on an
      accepted reply merge the response into the record, on any failure leave
      the record untouched and raise the error. `AsWritten` stamping is the
      code itself. */
  function RefreshIfNeeded(store: Value, clock: Clock, reply: TokenReply, stamping: Stamping): (r: Transition)
    ensures r.call.NoCall? <==> !TruthyField(Get(store, "refresh_token")) || !ExpiresSoon(store, clock.check)
    ensures r.call.NoCall? ==> r.store == store && r.error.None?
    ensures r.call.Called? ==> r.call.request == TokenRequest("refresh_token", JsString(Get(store, "refresh_token").value))
    ensures r.call.Called? && ReadToken(reply).Failure? ==> r.error == Some(ReadToken(reply).error) && r.store == store
    ensures r.call.Called? && ReadToken(reply).Success? ==>
              && r.error.None? && store.Obj? && r.store.Obj?
              && IsStampedMerge(r.store.fields, store.fields, ReadToken(reply).value, clock, stamping)
  {
    var refreshToken := Get(store, "refresh_token");
    if !TruthyField(refreshToken) || !ExpiresSoon(store, clock.check) then
      Transition(store, NoCall, None)
    else
      var call := Called(TokenRequest("refresh_token", JsString(refreshToken.value)));
      match ReadToken(reply)
      case Failure(e) => Transition(store, call, Some(e))
      case Success(tok) => Transition(Obj(Merge(store.fields, tok, clock, stamping)), call, None)
  }

  // ---- Properties of the grants ----------------------------------------------------

  /** A code exchange does not depend on the record it replaces. */
  lemma ExchangeIgnoresPriorRecord(s1: Value, s2: Value, code: Value, clock: Clock, reply: TokenReply, stamping: Stamping)
    requires ExchangeCode(s1, code, clock, reply, stamping).error.None?
    ensures ExchangeCode(s1, code, clock, reply, stamping).store == ExchangeCode(s2, code, clock, reply, stamping).store
  {
    var r1 := ExchangeCode(s1, code, clock, reply, stamping);
    var r2 := ExchangeCode(s2, code, clock, reply, stamping);
    StampedMergeIsUnique(r1.store.fields, r2.store.fields, map[], ReadToken(reply).value, clock, stamping);
  }

  /** After a successful exchange the record's refresh token is the
      response's, and there is none when the response has none, whatever the
      old record held. */
  lemma ExchangeDropsOldRefreshToken(store: Value, code: Value, clock: Clock, reply: TokenReply, stamping: Stamping)
    requires ReadToken(reply).Success?
    ensures Get(ExchangeCode(store, code, clock, reply, stamping).store, "refresh_token")
            == Get(Obj(Spread(ReadToken(reply).value)), "refresh_token")
  {
  }

  /** After a refresh that raised no error the record's refresh token is the
      response's when the response has one, and the old one otherwise. */
  lemma RefreshKeepsRefreshToken(store: Value, clock: Clock, reply: TokenReply, stamping: Stamping)
    requires RefreshIfNeeded(store, clock, reply, stamping).error.None?
    ensures Get(RefreshIfNeeded(store, clock, reply, stamping).store, "refresh_token")
            == if RefreshIfNeeded(store, clock, reply, stamping).call.Called? && ReadToken(reply).Success?
                  && "refresh_token" in Spread(ReadToken(reply).value)
               then Some(Spread(ReadToken(reply).value)["refresh_token"])
               else Get(store, "refresh_token")
  {
  }

  /** After a failed refresh the record still calls for the same refresh, so
      a later request retries it. */
  lemma FailedRefreshIsRetried(store: Value, clock: Clock, reply: TokenReply, later: Clock, reply': TokenReply, stamping: Stamping)
    requires RefreshIfNeeded(store, clock, reply, stamping).error.Some?
    requires clock.check <= later.check
    ensures RefreshIfNeeded(RefreshIfNeeded(store, clock, reply, stamping).store, later, reply', stamping).call
            == RefreshIfNeeded(store, clock, reply, stamping).call
  {
    StalenessPersists(store, clock.check, later.check);
  }

  /** After a successful refresh that keeps a truthy access token, the record
      is fresh until 60 seconds before `expires_at` = `now + lifetime`, so no
      second refresh is made in that window. The code's own stamp gives this
      only for a lifetime it adds rather than concatenates. */
  lemma RefreshedRecordIsFresh(store: Value, clock: Clock, reply: TokenReply, later: Clock, reply': TokenReply, stamping: Stamping)
    requires RefreshIfNeeded(store, clock, reply, stamping).call.Called?
    requires ReadToken(reply).Success?
    requires stamping.Corrected? || !ConcatenatingLifetime(Get(ReadToken(reply).value, "expires_in"))
    requires TruthyField(Get(RefreshIfNeeded(store, clock, reply, stamping).store, "access_token"))
    requires later.check + FreshnessMargin <= clock.expiry + Lifetime(Get(ReadToken(reply).value, "expires_in"))
    requires clock.expiry + Lifetime(Get(ReadToken(reply).value, "expires_in")) != 0
    ensures !ExpiresSoon(RefreshIfNeeded(store, clock, reply, stamping).store, later.check)
    ensures RefreshIfNeeded(RefreshIfNeeded(store, clock, reply, stamping).store, later, reply', stamping).call.NoCall?
  {
    var r := RefreshIfNeeded(store, clock, reply, stamping);
    var expiresIn := Get(ReadToken(reply).value, "expires_in");
    if stamping.AsWritten? {
      ExpiryAgreesOnNumbers(clock.expiry, expiresIn);
    }
    assert Get(r.store, "expires_at") == Some(Num(clock.expiry + Lifetime(expiresIn)));
  }
}
