/**
 * The compact signed token: the JWS Compact Serialization of section 7.1 of RFC 7515 with
 * HS256 (section 3.2 of RFC 7518), printed and parsed as the token service does. HMAC and
 * the JSON codec are parameters.
 */
module Tokens {
  import opened Basics
  import Base64
  import Text

  datatype TokenPayload = TokenPayload(
    sub: string, deviceId: string, sessionId: string, typ: string, family: string,
    stepUp: bool, stepUpExp: Option<int>, iat: int, exp: int, jti: string)

  const ACCESS := "access"
  const REFRESH := "refresh"

  datatype Primitives = Primitives(
    hmac: (string, string) -> seq<byte>,
    marshal: TokenPayload -> seq<byte>,
    unmarshal: seq<byte> -> Option<TokenPayload>)

  /** The one law the JSON codec must obey: decoding an encoded payload gives it back. */
  ghost predicate JsonInverse(c: Primitives) {
    forall p :: c.unmarshal(c.marshal(p)) == Some(p)
  }

  datatype Verified = Valid(payload: TokenPayload) | Invalid | Expired

  /** The bytes of an ASCII text. */
  function Bytes(s: string): seq<byte> {
    seq(|s|, i requires 0 <= i < |s| => s[i] as int % 256)
  }

  const HEADER := Base64.Encode(Base64.Url, Bytes("{\"alg\":\"HS256\",\"typ\":\"JWT\"}"))

  function SigningInput(c: Primitives, p: TokenPayload): string {
    HEADER + "." + Base64.Encode(Base64.Url, c.marshal(p))
  }

  function Sign(c: Primitives, p: TokenPayload, secret: string): string {
    var input := SigningInput(c, p);
    input + "." + Base64.Encode(Base64.Url, c.hmac(secret, input))
  }

  /** The checks on a token that has three parts. */
  function VerifyParts(c: Primitives, header: string, body: string, sig: string, secret: string,
                       nowUnix: int): Verified {
    var got := Base64.Decode(Base64.Url, sig);
    if got.None? || got.value != c.hmac(secret, header + "." + body) then Invalid
    else
      var json := Base64.Decode(Base64.Url, body);
      if json.None? then Invalid
      else
        var p := c.unmarshal(json.value);
        if p.None? then Invalid
        else if nowUnix > p.value.exp then Expired
        else Valid(p.value)
  }

  /** `nowUnix` is the clock in whole seconds; a token is still good in the second of its expiry. */
  function Verify(c: Primitives, token: string, secret: string, nowUnix: int): Verified {
    var parts := Text.Split(token, '.');
    if |parts| != 3 then Invalid else VerifyParts(c, parts[0], parts[1], parts[2], secret, nowUnix)
  }

  lemma NoDot(b: seq<byte>)
    ensures '.' !in Base64.Encode(Base64.Url, b)
  {
    Base64.EncodedChars(Base64.Url, b);
  }

  /** A dot-free header and body are recovered by splitting at the dots, whatever follows. */
  lemma TwoParts(x: string, y: string, z: string)
    requires '.' !in x && '.' !in y
    ensures Text.Split(x + "." + y + "." + z, '.') == [x, y] + Text.Split(z, '.')
  {
    Text.SplitField(x, '.', y + "." + z);
    Text.SplitField(y, '.', z);
    assert x + "." + y + "." + z == x + ['.'] + (y + "." + z);
    assert y + "." + z == y + ['.'] + z;
  }

  lemma ThreeParts(x: string, y: string, z: string)
    requires '.' !in x && '.' !in y && '.' !in z
    ensures Text.Split(x + "." + y + "." + z, '.') == [x, y, z]
  {
    TwoParts(x, y, z);
    Text.SplitPlain(z, '.');
  }

  lemma PartsVerify(c: Primitives, p: TokenPayload, secret: string, nowUnix: int)
    requires JsonInverse(c)
    ensures VerifyParts(c, HEADER, Base64.Encode(Base64.Url, c.marshal(p)),
                        Base64.Encode(Base64.Url, c.hmac(secret, SigningInput(c, p))), secret, nowUnix) ==
            if nowUnix > p.exp then Expired else Valid(p)
  {
    Base64.RoundTrip(Base64.Url, c.marshal(p));
    Base64.RoundTrip(Base64.Url, c.hmac(secret, SigningInput(c, p)));
  }

  lemma EncodedParts(header: string, body: seq<byte>, mac: seq<byte>)
    requires '.' !in header
    ensures var b, m := Base64.Encode(Base64.Url, body), Base64.Encode(Base64.Url, mac);
            Text.Split(header + "." + b + "." + m, '.') == [header, b, m]
  {
    NoDot(body);
    NoDot(mac);
    ThreeParts(header, Base64.Encode(Base64.Url, body), Base64.Encode(Base64.Url, mac));
  }

  lemma HeaderHasNoDot()
    ensures '.' !in HEADER
  {
    NoDot(Bytes("{\"alg\":\"HS256\",\"typ\":\"JWT\"}"));
  }

  /** A signed token is split into its header, body and signature. */
  lemma SignedParts(c: Primitives, p: TokenPayload, secret: string)
    ensures Text.Split(Sign(c, p, secret), '.') ==
            [HEADER, Base64.Encode(Base64.Url, c.marshal(p)),
             Base64.Encode(Base64.Url, c.hmac(secret, SigningInput(c, p)))]
  {
    HeaderHasNoDot();
    EncodedParts(HEADER, c.marshal(p), c.hmac(secret, SigningInput(c, p)));
  }

  /** Verifying what was signed returns the payload up to and including its expiry second. */
  lemma VerifySigned(c: Primitives, p: TokenPayload, secret: string, nowUnix: int)
    requires JsonInverse(c)
    ensures Verify(c, Sign(c, p, secret), secret, nowUnix) ==
            if nowUnix > p.exp then Expired else Valid(p)
  {
    var body := Base64.Encode(Base64.Url, c.marshal(p));
    var sig := Base64.Encode(Base64.Url, c.hmac(secret, SigningInput(c, p)));
    assert Text.Split(Sign(c, p, secret), '.') == [HEADER, body, sig] by {
      SignedParts(c, p, secret);
    }
    assert VerifyParts(c, HEADER, body, sig, secret, nowUnix) == if nowUnix > p.exp then Expired else Valid(p) by {
      PartsVerify(c, p, secret, nowUnix);
    }
  }

  // ----- what is accepted, for every text -----

  /** The text has three parts, the third is the HMAC of the first two, and the second is the payload. */
  ghost predicate Consists(c: Primitives, token: string, secret: string, p: TokenPayload,
                           header: string, body: string, sig: string) {
    && '.' !in header && '.' !in body && '.' !in sig && token == header + "." + body + "." + sig
    && Base64.Decode(Base64.Url, sig) == Some(c.hmac(secret, header + "." + body))
    && Base64.Decode(Base64.Url, body).Some?
    && c.unmarshal(Base64.Decode(Base64.Url, body).value) == Some(p)
  }

  /** The text carries payload `p` under a signature that is good for the secret. */
  ghost predicate Authentic(c: Primitives, token: string, secret: string, p: TokenPayload) {
    exists header, body, sig :: Consists(c, token, secret, p, header, body, sig)
  }

  lemma SplitInThree(token: string)
    ensures var parts := Text.Split(token, '.');
            |parts| == 3 ==>
              && token == parts[0] + "." + parts[1] + "." + parts[2]
              && '.' !in parts[0] && '.' !in parts[1] && '.' !in parts[2]
  {
    var parts := Text.Split(token, '.');
    Text.JoinSplit(token, '.');
    if |parts| == 3 {
      assert parts[0] in parts && parts[1] in parts && parts[2] in parts;
      assert parts[1..][1..] == [parts[2]];
      assert Text.Join(parts[1..], '.') == parts[1] + "." + parts[2];
    }
  }

  lemma AcceptedIsAuthentic(c: Primitives, token: string, secret: string, nowUnix: int)
    ensures var v := Verify(c, token, secret, nowUnix);
            && (v.Valid? ==> Authentic(c, token, secret, v.payload) && nowUnix <= v.payload.exp)
            && (v.Expired? ==> exists p :: Authentic(c, token, secret, p) && nowUnix > p.exp)
  {
    var v, parts := Verify(c, token, secret, nowUnix), Text.Split(token, '.');
    SplitInThree(token);
    if !v.Invalid? {
      var p := c.unmarshal(Base64.Decode(Base64.Url, parts[1]).value).value;
      assert Consists(c, token, secret, p, parts[0], parts[1], parts[2]);
      assert Authentic(c, token, secret, p);
    }
  }

  lemma AuthenticIsAccepted(c: Primitives, token: string, secret: string, nowUnix: int, p: TokenPayload)
    requires Authentic(c, token, secret, p)
    ensures Verify(c, token, secret, nowUnix) == if nowUnix > p.exp then Expired else Valid(p)
  {
    var header, body, sig :| Consists(c, token, secret, p, header, body, sig);
    ThreeParts(header, body, sig);
  }

  /** For every text whatsoever: it verifies as `p` iff it carries `p` under a good signature and is in time, it is
      expired iff it carries some payload under a good signature and is not, and otherwise it is invalid. */
  lemma VerifyExactly(c: Primitives, token: string, secret: string, nowUnix: int, p: TokenPayload)
    ensures Verify(c, token, secret, nowUnix) == Valid(p) <==> Authentic(c, token, secret, p) && nowUnix <= p.exp
    ensures Verify(c, token, secret, nowUnix) == Expired <==>
            exists q :: Authentic(c, token, secret, q) && nowUnix > q.exp
  {
    AcceptedIsAuthentic(c, token, secret, nowUnix);
    if Authentic(c, token, secret, p) {
      AuthenticIsAccepted(c, token, secret, nowUnix, p);
    }
    if q :| Authentic(c, token, secret, q) && nowUnix > q.exp {
      AuthenticIsAccepted(c, token, secret, nowUnix, q);
    }
  }

  /** Any text in place of the signature, checked under any secret: it is refused unless it decodes to the HMAC. So a
      token that was signed under another secret is refused unless the two HMACs agree. */
  lemma SignatureDecides(c: Primitives, p: TokenPayload, sig: string, secret: string, nowUnix: int)
    requires JsonInverse(c)
    ensures Verify(c, SigningInput(c, p) + "." + sig, secret, nowUnix) ==
            if Base64.Decode(Base64.Url, sig) != Some(c.hmac(secret, SigningInput(c, p))) then Invalid
            else if nowUnix > p.exp then Expired else Valid(p)
  {
    var body := Base64.Encode(Base64.Url, c.marshal(p));
    assert Text.Split(SigningInput(c, p) + "." + sig, '.') == [HEADER, body] + Text.Split(sig, '.') by {
      HeaderHasNoDot();
      NoDot(c.marshal(p));
      TwoParts(HEADER, body, sig);
    }
    assert '.' in sig ==> Base64.Decode(Base64.Url, sig).None? by {
      Base64.DecodeAccepted(Base64.Url, sig);
    }
    Base64.RoundTrip(Base64.Url, c.marshal(p));
    if '.' in sig {
      SplitDotted(sig);
    } else {
      Text.SplitPlain(sig, '.');
    }
  }

  lemma SplitDotted(s: string)
    requires '.' in s
    ensures |Text.Split(s, '.')| >= 2
  {
    Text.JoinSplit(s, '.');
    var parts := Text.Split(s, '.');
    assert parts[0] in parts;
  }

  lemma OtherSecret(c: Primitives, p: TokenPayload, secret: string, other: string, nowUnix: int)
    requires JsonInverse(c) && c.hmac(other, SigningInput(c, p)) != c.hmac(secret, SigningInput(c, p))
    ensures Verify(c, Sign(c, p, secret), other, nowUnix) == Invalid
  {
    Base64.RoundTrip(Base64.Url, c.hmac(secret, SigningInput(c, p)));
    SignatureDecides(c, p, Base64.Encode(Base64.Url, c.hmac(secret, SigningInput(c, p))), other, nowUnix);
  }

  /** Different payloads never share a token, whatever HMAC computes. */
  lemma SignInjective(c: Primitives, p: TokenPayload, q: TokenPayload, secret: string)
    requires JsonInverse(c)
    requires Sign(c, p, secret) == Sign(c, q, secret)
    ensures p == q
  {
    var early := if p.exp < q.exp then p.exp else q.exp;
    VerifySigned(c, p, secret, early);
    VerifySigned(c, q, secret, early);
  }

  // ----- access tokens and the step-up gate -----

  datatype Claims = Claims(
    userId: string, deviceId: string, sessionId: string, stepUp: bool, stepUpExp: Option<int>)

  function AccessPayload(user: string, device: string, session: string, family: string,
                         now: int, ttl: int, jti: string): TokenPayload {
    TokenPayload(user, device, session, ACCESS, family, false, None, Unix(now), Unix(now + ttl), jti)
  }

  function RefreshPayload(user: string, device: string, session: string, family: string,
                          now: int, ttl: int, jti: string): TokenPayload {
    TokenPayload(user, device, session, REFRESH, family, false, None, Unix(now), Unix(now + ttl), jti)
  }

  function StepUpPayload(user: string, device: string, session: string,
                         now: int, accessTTL: int, stepUpTTL: int, jti: string): TokenPayload {
    TokenPayload(user, device, session, ACCESS, "", true, Some(Unix(now + stepUpTTL)),
                 Unix(now), Unix(now + accessTTL), jti)
  }

  /** VerifyAccessToken; the step-up deadline becomes an instant again. */
  function VerifyAccess(c: Primitives, raw: string, secret: string, now: int): Option<Claims> {
    var v := Verify(c, raw, secret, Unix(now));
    if !v.Valid? || v.payload.typ != ACCESS then None
    else
      var p := v.payload;
      Some(Claims(p.sub, p.deviceId, p.sessionId, p.stepUp,
                  if p.stepUpExp.None? then None else Some(p.stepUpExp.value * SECOND)))
  }

  /** The claims that an access payload makes, with the step-up deadline as an instant. */
  predicate Claimed(p: TokenPayload, claims: Claims) {
    && p.typ == "access"
    && claims.userId == p.sub && claims.deviceId == p.deviceId && claims.sessionId == p.sessionId
    && claims.stepUp == p.stepUp && claims.stepUpExp.Some? == p.stepUpExp.Some?
    && (p.stepUpExp.Some? ==> claims.stepUpExp.value == p.stepUpExp.value * SECOND)
  }

  /** For every text: the claims are those of an authentic access token in time. */
  lemma AccessExactly(c: Primitives, raw: string, secret: string, now: int, claims: Claims)
    ensures VerifyAccess(c, raw, secret, now) == Some(claims) <==>
            exists p :: Authentic(c, raw, secret, p) && Unix(now) <= p.exp && Claimed(p, claims)
  {
    AcceptedIsAuthentic(c, raw, secret, Unix(now));
    if VerifyAccess(c, raw, secret, now) == Some(claims) {
      assert Claimed(Verify(c, raw, secret, Unix(now)).payload, claims);
    }
    if p :| Authentic(c, raw, secret, p) && Unix(now) <= p.exp && Claimed(p, claims) {
      AuthenticIsAccepted(c, raw, secret, Unix(now), p);
    }
  }

  /** The decision of the RequireStepUp middleware. */
  predicate StepUpGate(claims: Claims, now: int) {
    claims.stepUp && !(claims.stepUpExp.Some? && now > claims.stepUpExp.value)
  }

  predicate PassesStepUp(c: Primitives, raw: string, secret: string, now: int) {
    var claims := VerifyAccess(c, raw, secret, now);
    claims.Some? && StepUpGate(claims.value, now)
  }

  /**
   * End to end: a step-up token issued at `t0` opens the gate at `t` exactly while both of its
   * deadlines hold, each truncated to a second when it was issued.
   */
  lemma StepUpWindow(c: Primitives, user: string, device: string, session: string, secret: string,
                     t0: int, accessTTL: int, stepUpTTL: int, jti: string, t: int)
    requires JsonInverse(c)
    ensures var raw := Sign(c, StepUpPayload(user, device, session, t0, accessTTL, stepUpTTL, jti), secret);
            && (PassesStepUp(c, raw, secret, t) <==>
                Unix(t) <= Unix(t0 + accessTTL) && t <= Unix(t0 + stepUpTTL) * SECOND)
            && (VerifyAccess(c, raw, secret, t).Some? ==>
                var got := VerifyAccess(c, raw, secret, t).value;
                got.userId == user && got.deviceId == device && got.sessionId == session)
  {
    VerifySigned(c, StepUpPayload(user, device, session, t0, accessTTL, stepUpTTL, jti), secret, Unix(t));
  }

  /** Whichever lifetime is shorter: the gate is never open past the step-up lifetime, nor a second or more past
      the access lifetime, and it is open until less than a second before the earlier of the two deadlines. */
  lemma StepUpWindowLength(c: Primitives, user: string, device: string, session: string, secret: string,
                           t0: int, accessTTL: int, stepUpTTL: int, jti: string, t: int)
    requires JsonInverse(c)
    ensures var raw := Sign(c, StepUpPayload(user, device, session, t0, accessTTL, stepUpTTL, jti), secret);
            && (PassesStepUp(c, raw, secret, t) ==> t <= t0 + stepUpTTL && t < t0 + accessTTL + SECOND)
            && (t <= t0 + stepUpTTL - SECOND && t <= t0 + accessTTL ==> PassesStepUp(c, raw, secret, t))
  {
    StepUpWindow(c, user, device, session, secret, t0, accessTTL, stepUpTTL, jti, t);
  }

  /** An ordinary pair never opens the gate, even if both secrets are the same string. */
  lemma PairNeverStepsUp(c: Primitives, user: string, device: string, session: string, family: string,
                         secret: string, t0: int, ttl: int, jti: string, t: int)
    requires JsonInverse(c)
    ensures !PassesStepUp(c, Sign(c, AccessPayload(user, device, session, family, t0, ttl, jti), secret), secret, t)
    ensures var refresh := Sign(c, RefreshPayload(user, device, session, family, t0, ttl, jti), secret);
            VerifyAccess(c, refresh, secret, t).None?
  {
    VerifySigned(c, AccessPayload(user, device, session, family, t0, ttl, jti), secret, Unix(t));
    VerifySigned(c, RefreshPayload(user, device, session, family, t0, ttl, jti), secret, Unix(t));
  }
}
