/** A token response whose `expires_in` is a JSON string ("3600") makes
    `nowSec() + (tok.expires_in || 1800)` a string concatenation: `expires_at`
    becomes the numeral of `now` followed by the lifetime's digits, which
    reads back as a number at least ten times `now`. The record then looks
    fresh long after the token has expired, so no refresh is ever made and
    every proxied call carries a dead token. The corrected stamp
    `Credentials.Expiry` reads the lifetime as a number. */
module ExpiryFinding {
  import opened Wrappers
  import opened JsValue
  import opened Credentials

  /** As written, a digit-string lifetime is appended to `now`. */
  lemma {:induction false} StringLifetimeConcatenates(now: nat, s: string)
    requires |s| > 0 && AllDigits(s)
    ensures ExpiryAsWritten(now, Some(Str(s))) == Str(Digits(now) + s)
    ensures JsNumber(ExpiryAsWritten(now, Some(Str(s)))) == Int(now * Pow10(|s|) + Val(s))
  {
    var text := Digits(now) + s;
    ValOfConcat(Digits(now), s);
    ValOfDigits(now);
    assert text[0] == Digits(now)[0];
    assert StringToNumber(text) == Int(Val(text));
  }

  lemma {:induction false} Pow10AtLeastTen(k: nat)
    requires k > 0
    ensures Pow10(k) >= 10
  {
    if k > 1 {
      Pow10AtLeastTen(k - 1);
    }
  }

  /** As written: a record stamped from a digit-string lifetime is not stale
      at any time up to ten times the stamping time, minus the margin — in
      particular not once the lifetime has run out. The corrected stamp is
      stale from that point on. */
  lemma AsWrittenStringLifetimeNeverExpires(fields: map<string, Value>, now: nat, s: string, t: int)
    requires |s| > 0 && AllDigits(s)
    requires TruthyField(Get(Obj(fields), "access_token"))
    requires now + Lifetime(Some(Str(s))) <= t
    requires t + FreshnessMargin <= 10 * now
    ensures !ExpiresSoon(Obj(fields["expires_at" := ExpiryAsWritten(now, Some(Str(s)))]), t)
    ensures ExpiresSoon(Obj(fields["expires_at" := Expiry(now, Some(Str(s)))]), t)
  {
    StringLifetimeConcatenates(now, s);
    Pow10AtLeastTen(|s|);
    var stamped := now * Pow10(|s|) + Val(s);
    assert stamped >= 10 * now by {
      TimesAtLeast(now, Pow10(|s|), 10);
    }
    var asWritten := Obj(fields["expires_at" := ExpiryAsWritten(now, Some(Str(s)))]);
    assert Get(asWritten, "access_token") == Get(Obj(fields), "access_token");
    assert Get(asWritten, "expires_at") == Some(Str(Digits(now) + s));
    assert JsNumber(Get(asWritten, "expires_at").value) == Int(stamped);
    var corrected := Obj(fields["expires_at" := Expiry(now, Some(Str(s)))]);
    assert Get(corrected, "expires_at") == Some(Num(now + Lifetime(Some(Str(s)))));
  }

  /** The same defect at the level of the operation: a code exchange whose
      response carries `expires_in` as a digit string, run as written, leaves
      a record that is not stale once the lifetime has run out (up to ten
      times the stamping time); the corrected exchange leaves a stale one. */
  lemma ExchangedStringLifetimeNeverExpires(store: Value, code: Value, clock: Clock, reply: TokenReply, s: string, t: int)
    requires clock.expiry >= 0
    requires |s| > 0 && AllDigits(s)
    requires ReadToken(reply).Success?
    requires Get(ReadToken(reply).value, "expires_in") == Some(Str(s))
    requires TruthyField(Get(ReadToken(reply).value, "access_token"))
    requires clock.expiry + Lifetime(Some(Str(s))) <= t
    requires t + FreshnessMargin <= 10 * clock.expiry
    ensures !ExpiresSoon(ExchangeCode(store, code, clock, reply, AsWritten).store, t)
    ensures ExpiresSoon(ExchangeCode(store, code, clock, reply, Corrected).store, t)
  {
    var tok := ReadToken(reply).value;
    var stamped := tok.fields["obtained_at" := Num(clock.obtained)];
    assert Get(Obj(stamped), "access_token") == Get(tok, "access_token");
    AsWrittenStringLifetimeNeverExpires(stamped, clock.expiry, s, t);
    var asWritten := ExchangeCode(store, code, clock, reply, AsWritten).store;
    StampedMergeIsUnique(asWritten.fields, stamped["expires_at" := ExpiryAsWritten(clock.expiry, Some(Str(s)))],
                         map[], tok, clock, AsWritten);
    var corrected := ExchangeCode(store, code, clock, reply, Corrected).store;
    StampedMergeIsUnique(corrected.fields, stamped["expires_at" := Expiry(clock.expiry, Some(Str(s)))],
                         map[], tok, clock, Corrected);
  }

  lemma TimesAtLeast(a: nat, b: nat, c: nat)
    requires b >= c
    ensures a * b >= a * c
  {
  }

  /** The concrete case: a token granted at 1700000000 for "3600" seconds is
      still taken as fresh at 1700003600, when it has expired; the corrected
      record asks for a refresh. */
  lemma ThirtySixHundredAsString()
    ensures JsNumber(ExpiryAsWritten(1700000000, Some(Str("3600")))) == Int(17000000003600)
    ensures !ExpiresSoon(Obj(map["access_token" := Str("a"),
                                 "expires_at" := ExpiryAsWritten(1700000000, Some(Str("3600")))]), 1700003600)
    ensures Expiry(1700000000, Some(Str("3600"))) == Num(1700003600)
    ensures ExpiresSoon(Obj(map["access_token" := Str("a"),
                                "expires_at" := Expiry(1700000000, Some(Str("3600")))]), 1700003600)
  {
    var s := "3600";
    assert AllDigits(s);
    assert Val(s) == 3600 by {
      assert s[..3] == "360" && "360"[..2] == "36" && "36"[..1] == "3" && "3"[..0] == "";
      assert Val("3") == 3;
      assert Val("36") == 36;
      assert Val("360") == 360;
    }
    assert Pow10(4) == 10000;
    StringLifetimeConcatenates(1700000000, s);
    var fields := map["access_token" := Str("a")];
    AsWrittenStringLifetimeNeverExpires(fields, 1700000000, s, 1700003600);
    assert fields["expires_at" := ExpiryAsWritten(1700000000, Some(Str(s)))]
        == map["access_token" := Str("a"), "expires_at" := ExpiryAsWritten(1700000000, Some(Str("3600")))];
    assert fields["expires_at" := Expiry(1700000000, Some(Str(s)))]
        == map["access_token" := Str("a"), "expires_at" := Expiry(1700000000, Some(Str("3600")))];
  }
}
