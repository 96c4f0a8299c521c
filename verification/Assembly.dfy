/** The protocol's environment put together from the concrete codecs: its laws are theorems, not assumptions. */
module Assembly {
  import opened Basics
  import opened Protocol
  import Messages
  import PasswordHash
  import Tokens

  /** What the codecs are built from. */
  datatype Parts = Parts(
    prims: Tokens.Primitives, sha256Hex: string -> string, challengeSecret: string, kdf: PasswordHash.KeyFunction,
    validKey: (string, string) -> bool, checkSignature: (string, string, string, string) -> bool)

  function Assemble(cfg: Config, parts: Parts): Env {
    Env(cfg,
        (p, secret) => Tokens.Sign(parts.prims, p, secret),
        (raw, secret, t) => Tokens.Verify(parts.prims, raw, secret, t),
        parts.sha256Hex,
        (password, stored) => PasswordHash.VerifyPassword(parts.kdf, password, stored) == PasswordHash.Match(true),
        (n, d, a, e) => Messages.Seal(parts.prims.hmac, parts.challengeSecret, n, d, a, e),
        (n, d, a, e, sig) => Messages.SealMatches(parts.prims.hmac, parts.challengeSecret, n, d, a, e, sig),
        parts.validKey, parts.checkSignature)
  }

  /** Whatever HMAC, SHA-256, Argon2 and the signature checks compute, the assembled service is sound as
      soon as decoding a JSON-encoded payload gives the payload back. */
  lemma AssembledIsSound(cfg: Config, parts: Parts)
    requires Tokens.JsonInverse(parts.prims)
    ensures Sound(Assemble(cfg, parts)) && Assemble(cfg, parts).cfg == cfg
    ensures Assemble(cfg, parts).hash == parts.sha256Hex
    ensures Assemble(cfg, parts).validKey == parts.validKey
    ensures Assemble(cfg, parts).checkSignature == parts.checkSignature
  {
    var env := Assemble(cfg, parts);
    forall p, k, t ensures env.verify(env.sign(p, k), k, t) == if t > p.exp then Tokens.Expired else Tokens.Valid(p) {
      Tokens.VerifySigned(parts.prims, p, k, t);
    }
    forall n, d, a, e ensures env.sealMatches(n, d, a, e, env.seal(n, d, a, e)) {
      Messages.SealChecks(parts.prims.hmac, parts.challengeSecret, n, d, a, e, "");
    }
  }

  /** A user whose password was hashed by this service logs in with it, and with nothing else unless
      another password has the same key. */
  lemma StoredPasswordLogsIn(cfg: Config, parts: Parts, ps: PasswordHash.Params, keyLength: PasswordHash.uint32,
                             password: string, salt: seq<byte>,
                             core: Core, user: string, now: nat, attempt: LoginRequest, draws: Draws)
    requires PasswordHash.ExactLength(parts.kdf) && PasswordHash.Runnable(ps)
    requires user in core.users && LoginGate(core.users[user], now).None?
    requires PasswordHash.HashPassword(parts.kdf, ps, keyLength, password, salt) == Some(core.users[user].passwordHash)
    ensures var r := LoginStep(Assemble(cfg, parts), core, now, attempt, Some(user), draws);
            && (attempt.password == password ==> r.outcome.LoggedIn?)
            && (r.outcome.LoggedIn? <==>
                parts.kdf(attempt.password, salt, ps, keyLength) == parts.kdf(password, salt, ps, keyLength))
  {
    PasswordHash.HashedPasswordMatches(parts.kdf, ps, keyLength, password, salt, attempt.password);
  }

  // ----- what the tokens handed out are good for -----

  /** At instant `t` the access token stands for exactly this user, device and session until its lifetime ends and
      never opens the step-up gate, and the refresh token carries exactly this lineage until its own ends. */
  predicate GoodPair(cfg: Config, prims: Tokens.Primitives, pair: Pair, user: string, device: string, session: string,
                     family: string, now: int, refreshJti: string, t: int) {
    && Tokens.VerifyAccess(prims, pair.access, cfg.accessSecret, t) ==
       (if Unix(t) > Unix(now + cfg.accessTTL) then None
        else Some(Tokens.Claims(user, device, session, false, None)))
    && !Tokens.PassesStepUp(prims, pair.access, cfg.accessSecret, t)
    && Tokens.Verify(prims, pair.refresh, cfg.refreshSecret, Unix(t)) ==
       (if Unix(t) > Unix(now + cfg.refreshTTL) then Tokens.Expired
        else Tokens.Valid(Tokens.TokenPayload(user, device, session, "refresh", family, false, None, Unix(now),
                                              Unix(now + cfg.refreshTTL), refreshJti)))
  }

  lemma IssuedPairIsGood(cfg: Config, parts: Parts, user: string, device: string, session: string, family: string,
                         now: int, accessJti: string, refreshJti: string, t: int)
    requires Tokens.JsonInverse(parts.prims)
    ensures GoodPair(cfg, parts.prims,
                     IssuePair(Assemble(cfg, parts), user, device, session, family, now, accessJti, refreshJti),
                     user, device, session, family, now, refreshJti, t)
  {
    Tokens.VerifySigned(parts.prims,
                        Tokens.AccessPayload(user, device, session, family, now, cfg.accessTTL, accessJti),
                        cfg.accessSecret, Unix(t));
    Tokens.VerifySigned(parts.prims,
                        Tokens.RefreshPayload(user, device, session, family, now, cfg.refreshTTL, refreshJti),
                        cfg.refreshSecret, Unix(t));
  }

  /** The tokens of a login are good for its user, its device and its new session. */
  lemma LoginTokens(cfg: Config, parts: Parts, core: Core, now: nat, req: LoginRequest, user: string, draws: Draws,
                    t: int)
    requires Tokens.JsonInverse(parts.prims)
    requires LoginStep(Assemble(cfg, parts), core, now, req, Some(user), draws).outcome.LoggedIn?
    ensures GoodPair(cfg, parts.prims, LoginStep(Assemble(cfg, parts), core, now, req, Some(user), draws).outcome.pair,
                     user, req.deviceId, draws.sessionId, draws.family, now, draws.refreshJti, t)
  {
    IssuedPairIsGood(cfg, parts, user, req.deviceId, draws.sessionId, draws.family, now, draws.accessJti,
                     draws.refreshJti, t);
  }

  lemma RenewedMeans(env: Env, sessions: Sessions, now: nat, raw: string, device: string, ja: string, jr: string)
    requires Rotate(env, sessions, now, raw, device, ja, jr).1.Renewed?
    ensures var v := env.verify(raw, env.cfg.refreshSecret, Unix(now));
            && v.Valid? && v.payload.typ == "refresh" && v.payload.deviceId == device
            && Rotate(env, sessions, now, raw, device, ja, jr).1.pair ==
               IssuePair(env, v.payload.sub, device, v.payload.sessionId, v.payload.family, now, ja, jr)
  {
  }

  /** A refresh succeeds only for an authentic refresh token of the given device, in time; and the tokens it answers
      with are good for the user, device, session and family of that token. */
  lemma RefreshTokens(cfg: Config, parts: Parts, sessions: Sessions, now: nat, raw: string, device: string,
                      accessJti: string, refreshJti: string, t: int)
    requires Tokens.JsonInverse(parts.prims)
    requires Rotate(Assemble(cfg, parts), sessions, now, raw, device, accessJti, refreshJti).1.Renewed?
    ensures var pair := Rotate(Assemble(cfg, parts), sessions, now, raw, device, accessJti, refreshJti).1.pair;
            exists p :: && Tokens.Authentic(parts.prims, raw, cfg.refreshSecret, p)
                        && p.typ == "refresh" && p.deviceId == device && Unix(now) <= p.exp
                        && GoodPair(cfg, parts.prims, pair, p.sub, device, p.sessionId, p.family, now, refreshJti, t)
  {
    RenewedMeans(Assemble(cfg, parts), sessions, now, raw, device, accessJti, refreshJti);
    var v := Tokens.Verify(parts.prims, raw, cfg.refreshSecret, Unix(now));
    Tokens.AcceptedIsAuthentic(parts.prims, raw, cfg.refreshSecret, Unix(now));
    IssuedPairIsGood(cfg, parts, v.payload.sub, device, v.payload.sessionId, v.payload.family, now, accessJti,
                     refreshJti, t);
  }

  /** The tokens of a biometric exchange are good for the user and device of the request and for the session it names,
      in that session's family. */
  lemma ExchangeTokens(cfg: Config, parts: Parts, core: Core, now: nat, req: AuthRequest, sid: string,
                       accessJti: string, refreshJti: string, t: int)
    requires Tokens.JsonInverse(parts.prims)
    requires ExchangeStep(Assemble(cfg, parts), core, now, req, sid, accessJti, refreshJti).outcome.Renewed?
    ensures sid in core.sessions
    ensures var pair := ExchangeStep(Assemble(cfg, parts), core, now, req, sid, accessJti, refreshJti).outcome.pair;
            GoodPair(cfg, parts.prims, pair, req.userId, req.deviceId, sid, core.sessions[sid].family, now,
                     refreshJti, t)
  {
    IssuedPairIsGood(cfg, parts, req.userId, req.deviceId, sid, core.sessions[sid].family, now, accessJti,
                     refreshJti, t);
  }

  /** At instant `t` the token stands for this user, device and session until its lifetime ends, and opens the step-up
      gate exactly while both truncated deadlines hold. */
  predicate GoodStepUp(cfg: Config, prims: Tokens.Primitives, token: string, user: string, device: string,
                       session: string, now: int, t: int) {
    && Tokens.VerifyAccess(prims, token, cfg.accessSecret, t) ==
       (if Unix(t) > Unix(now + cfg.accessTTL) then None
        else Some(Tokens.Claims(user, device, session, true, Some(Unix(now + cfg.stepUpTTL) * SECOND))))
    && (Tokens.PassesStepUp(prims, token, cfg.accessSecret, t) <==>
        Unix(t) <= Unix(now + cfg.accessTTL) && t <= Unix(now + cfg.stepUpTTL) * SECOND)
  }

  lemma StepUpTokenIsGood(cfg: Config, prims: Tokens.Primitives, user: string, device: string, session: string,
                          now: int, jti: string, t: int)
    requires Tokens.JsonInverse(prims)
    ensures var p := Tokens.StepUpPayload(user, device, session, now, cfg.accessTTL, cfg.stepUpTTL, jti);
            GoodStepUp(cfg, prims, Tokens.Sign(prims, p, cfg.accessSecret), user, device, session, now, t)
  {
    var p := Tokens.StepUpPayload(user, device, session, now, cfg.accessTTL, cfg.stepUpTTL, jti);
    Tokens.VerifySigned(prims, p, cfg.accessSecret, Unix(t));
  }

  lemma StepUpMeans(env: Env, core: Core, now: nat, req: AuthRequest, sid: string, jti: string)
    requires PaymentStep(env, core, now, req, sid, jti).outcome.StepUpIssued?
    ensures var p := Tokens.StepUpPayload(req.userId, req.deviceId, sid, now, env.cfg.accessTTL, env.cfg.stepUpTTL,
                                          jti);
            PaymentStep(env, core, now, req, sid, jti).outcome.token == env.sign(p, env.cfg.accessSecret)
  {
  }

  /** The token of a granted payment is a good step-up token for the user and device of the request and the caller's
      session. */
  lemma PaymentToken(cfg: Config, parts: Parts, core: Core, now: nat, req: AuthRequest, sid: string, jti: string,
                     t: int)
    requires Tokens.JsonInverse(parts.prims)
    requires PaymentStep(Assemble(cfg, parts), core, now, req, sid, jti).outcome.StepUpIssued?
    ensures GoodStepUp(cfg, parts.prims, PaymentStep(Assemble(cfg, parts), core, now, req, sid, jti).outcome.token,
                       req.userId, req.deviceId, sid, now, t)
  {
    StepUpMeans(Assemble(cfg, parts), core, now, req, sid, jti);
    StepUpTokenIsGood(cfg, parts.prims, req.userId, req.deviceId, sid, now, jti, t);
  }
}
