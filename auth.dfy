/**
 * Magic-link login: one-shot login tokens with an expiry, sessions with an
 * expiry, and the request that creates a token and sends its link through
 * the configured notifiers.  The `login_tokens` and `sessions` tables are
 * maps keyed by token and by session id; the clock reading, the random
 * token or id, and the ISO rendering of a time are parameters.
 */
module Auth {
  import opened Wrappers
  import opened Strings
  import opened JsValue
  import opened Telegram
  import opened NotifyTelegram
  import opened Notify

  /** Ten minutes, in milliseconds. */
  const LOGIN_TOKEN_TTL_MS: int := 10 * 60 * 1000
  /** Seven days, in milliseconds. */
  const SESSION_TTL_MS: int := 7 * 24 * 60 * 60 * 1000

  /**
   * Whether `Number(process.env[key] || default)` is a number: it is NaN
   * exactly when the variable is set to something other than an integer
   * literal.
   */
  predicate TtlIsNumber(env: Env, key: string, default: int) {
    ToNumber(Or(EnvVal(env, key), Num(default))).Num?
  }

  /**
   * `Number(process.env[key] || default)` when that is a number; when it is
   * NaN (see `TtlIsNumber`) the default stands in.
   */
  function TtlMs(env: Env, key: string, default: int): (ttl: int)
    ensures EnvStr(env, key) == "" ==> ttl == default
    ensures ParseInt(EnvStr(env, key)).Some? ==> ttl == ParseInt(EnvStr(env, key)).value
    ensures !TtlIsNumber(env, key, default) <==> EnvStr(env, key) != "" && ParseInt(EnvStr(env, key)).None?
  {
    match ToNumber(Or(EnvVal(env, key), Num(default)))
    case Num(n) => n
    case _ => default
  }

  /** `baseUrlFromEnv()`: `PUBLIC_BASE_URL` with one trailing `/` removed. */
  function BaseUrlFromEnv(env: Env): (r: string)
    ensures var b := EnvStr(env, "PUBLIC_BASE_URL");
            StartsWith(b, r) && |b| - 1 <= |r| <= |b|
            && (r == b <==> b == "" || b[|b| - 1] != '/')
  {
    var b := EnvStr(env, "PUBLIC_BASE_URL");
    if b != "" && b[|b| - 1] == '/' then b[..|b| - 1] else b
  }

  /** Only one slash is stripped: `https://x//` becomes `https://x/`. */
  lemma BaseUrlStripsOneSlash(env: Env)
    requires EnvStr(env, "PUBLIC_BASE_URL") == "https://x//"
    ensures BaseUrlFromEnv(env) == "https://x/"
  {
  }

  /** `authEnabled()`: `AUTH_ENABLED` is `1` or `true`, or an `AUTH_SECRET` is set. */
  predicate AuthEnabled(env: Env) {
    EnvStr(env, "AUTH_ENABLED") == "1" || EnvStr(env, "AUTH_ENABLED") == "true" || EnvStr(env, "AUTH_SECRET") != ""
  }

  /**
   * The comparison is exact and case-sensitive: without a secret, spellings
   * such as `TRUE`, `yes` or `false` leave authentication off.
   */
  lemma AuthEnabledExactSpelling(env: Env)
    requires EnvStr(env, "AUTH_SECRET") == ""
    requires EnvStr(env, "AUTH_ENABLED") in {"TRUE", "True", "yes", "on", "false", "0"}
    ensures !AuthEnabled(env)
  {
  }

  /** Any non-empty secret turns authentication on, whatever `AUTH_ENABLED` holds. */
  lemma AuthSecretEnables(env: Env, flag: string)
    requires EnvStr(env, "AUTH_SECRET") != ""
    ensures AuthEnabled(env)
    ensures AuthEnabled(env["AUTH_ENABLED" := flag])
  {
    assert EnvStr(env["AUTH_ENABLED" := flag], "AUTH_SECRET") == EnvStr(env, "AUTH_SECRET");
  }

  /** A row of `login_tokens`; `usedAt` is None while the column is NULL. */
  datatype LoginToken = LoginToken(createdAt: int, expiresAt: int, usedAt: Option<int>)

  /** A row of `sessions`. */
  datatype Session = Session(createdAt: int, expiresAt: int)

  /** The columns `getSession` selects. */
  datatype SessionRow = SessionRow(id: string, expiresAt: int)

  datatype ConsumeResult = Consumed | NotFound | AlreadyUsed | Expired
  {
    predicate Ok() {
      Consumed?
    }

    function Reason(): string
      requires !Ok()
    {
      match this
      case NotFound => "not_found"
      case AlreadyUsed => "already_used"
      case Expired => "expired"
    }
  }

  /** `if (row.usedAt)`: a NULL or zero `usedAt` reads as unused. */
  predicate Used(t: LoginToken) {
    t.usedAt.Some? && t.usedAt.value != 0
  }

  /**
   * The outcome of consuming `token` at time `now`: not found, then already
   * used, then expired (strictly before `now`), else consumed.
   */
  function ConsumeCheck(table: map<string, LoginToken>, token: string, now: int): (r: ConsumeResult)
    ensures r == NotFound <==> token !in table
    ensures r == AlreadyUsed <==> token in table && Used(table[token])
    ensures r == Expired <==> token in table && !Used(table[token]) && table[token].expiresAt < now
    ensures r == Consumed <==> token in table && !Used(table[token]) && now <= table[token].expiresAt
  {
    if token !in table then NotFound
    else if Used(table[token]) then AlreadyUsed
    else if table[token].expiresAt < now then Expired
    else Consumed
  }

  /** The token table after a consume: only a successful one writes, and only `usedAt` of that token. */
  function AfterConsume(table: map<string, LoginToken>, token: string, now: int): (t: map<string, LoginToken>)
    ensures t.Keys == table.Keys
    ensures forall k :: k in table && k != token ==> t[k] == table[k]
    ensures ConsumeCheck(table, token, now) != Consumed ==> t == table
    ensures ConsumeCheck(table, token, now) == Consumed ==> t[token] == table[token].(usedAt := Some(now))
  {
    if ConsumeCheck(table, token, now) == Consumed then table[token := table[token].(usedAt := Some(now))]
    else table
  }

  /**
   * A token is consumed at most once: after a successful consume at a time
   * after the epoch, every later attempt is `already_used`, however early.
   */
  lemma ConsumeAtMostOnce(table: map<string, LoginToken>, token: string, now: int, later: int)
    requires now != 0
    requires ConsumeCheck(table, token, now) == Consumed
    ensures ConsumeCheck(AfterConsume(table, token, now), token, later) == AlreadyUsed
  {
  }

  /** Expiry is strict: a token whose `expiresAt` is exactly now can still be consumed. */
  lemma ConsumeAtExpiryInstant(table: map<string, LoginToken>, token: string)
    requires token in table && !Used(table[token])
    ensures ConsumeCheck(table, token, table[token].expiresAt) == Consumed
    ensures ConsumeCheck(table, token, table[token].expiresAt + 1) == Expired
  {
  }

  /**
   * The largest time value a `Date` holds, in milliseconds either side of
   * the epoch (section 21.4.1.31 of ECMA-262, TimeClip); `toISOString` of a
   * time outside it is an invalid date and throws a RangeError.
   */
  const MAX_TIME_VALUE: int := 8640000000000000

  predicate IsTimeValue(t: int) {
    -MAX_TIME_VALUE <= t <= MAX_TIME_VALUE
  }

  /** The rendered login link. */
  function LoginLink(base: string, token: string): string {
    base + "/auth/callback?token=" + token
  }

  /** The lines of the login message; `expiry` is the ISO rendering of the expiry time. */
  function LoginLinkLines(expiry: string, link: string): (lines: seq<string>)
    ensures |lines| == 6 && lines[3] == link
  {
    ["Escalatex login link", "", "Link (expires " + expiry + "):", link, "", "If you did not request this, ignore it."]
  }

  /** The login message: the lines joined by newlines. */
  function LoginLinkText(expiry: string, link: string): string {
    Join(LoginLinkLines(expiry, link), '\n')
  }

  /** The fourth line of the message is the link itself, whenever the expiry and the link are single lines. */
  lemma LoginLinkTextLines(expiry: string, link: string)
    requires '\n' !in expiry && '\n' !in link
    ensures Split(LoginLinkText(expiry, link), '\n') == LoginLinkLines(expiry, link)
    ensures Split(LoginLinkText(expiry, link), '\n')[3] == link
  {
    var lines := LoginLinkLines(expiry, link);
    assert '\n' !in lines[2];
    SplitJoin(lines, '\n');
  }

  datatype LoginLinkResult =
    | LinkFailed(error: string)
    | LinkSent(results: seq<NotifyResult>)
    | LinkThrew

  /** The `login_tokens` and `sessions` tables. */
  class AuthStore {
    var loginTokens: map<string, LoginToken>
    var sessions: map<string, Session>

    constructor()
      ensures loginTokens == map[] && sessions == map[]
    {
      loginTokens := map[];
      sessions := map[];
    }

    /**
     * `createLoginToken()` with the random token and the clock as
     * parameters: inserts an unused row expiring `ttl` after `now`; the
     * insert fails (the call throws) when the token is already a key.
     */
    method CreateLoginToken(env: Env, token: string, now: int) returns (r: Result<(string, int), string>)
      modifies this
      ensures var ttl := TtlMs(env, "LOGIN_TOKEN_TTL_MS", LOGIN_TOKEN_TTL_MS);
              token !in old(loginTokens) ==>
                r == Ok((token, now + ttl)) && loginTokens == old(loginTokens)[token := LoginToken(now, now + ttl, None)]
      ensures token in old(loginTokens) ==> r.Err? && loginTokens == old(loginTokens)
      ensures r.Ok? ==> forall t :: ConsumeCheck(loginTokens, token, t) == if t <= r.value.1 then Consumed else Expired
      ensures sessions == old(sessions)
    {
      var ttlMs := TtlMs(env, "LOGIN_TOKEN_TTL_MS", LOGIN_TOKEN_TTL_MS);
      if token in loginTokens {
        return Err("UNIQUE constraint failed: login_tokens.token");
      }
      loginTokens := loginTokens[token := LoginToken(now, now + ttlMs, None)];
      return Ok((token, now + ttlMs));
    }

    /** `consumeLoginToken(token)` at time `now`. */
    method ConsumeLoginToken(token: string, now: int) returns (r: ConsumeResult)
      modifies this
      ensures r == ConsumeCheck(old(loginTokens), token, now)
      ensures loginTokens == AfterConsume(old(loginTokens), token, now)
      ensures !r.Ok() ==> loginTokens == old(loginTokens)
      ensures sessions == old(sessions)
    {
      if token !in loginTokens {
        return NotFound;
      }
      var row := loginTokens[token];
      if row.usedAt.Some? && row.usedAt.value != 0 {
        return AlreadyUsed;
      }
      if row.expiresAt < now {
        return Expired;
      }
      loginTokens := loginTokens[token := row.(usedAt := Some(now))];
      return Consumed;
    }

    /** `createSession()` with the random id and the clock as parameters. */
    method CreateSession(env: Env, id: string, now: int) returns (r: Result<(string, int), string>)
      modifies this
      ensures var ttl := TtlMs(env, "SESSION_TTL_MS", SESSION_TTL_MS);
              id !in old(sessions) ==> r == Ok((id, now + ttl)) && sessions == old(sessions)[id := Session(now, now + ttl)]
      ensures id in old(sessions) ==> r.Err? && sessions == old(sessions)
      ensures r.Ok? && id != "" ==> forall t :: GetSession(id, t).Some? <==> t <= r.value.1
      ensures loginTokens == old(loginTokens)
    {
      var ttlMs := TtlMs(env, "SESSION_TTL_MS", SESSION_TTL_MS);
      if id in sessions {
        return Err("UNIQUE constraint failed: sessions.id");
      }
      sessions := sessions[id := Session(now, now + ttlMs)];
      return Ok((id, now + ttlMs));
    }

    /** `getSession(sessionId)` at time `now`: null for an empty or unknown id and for an expired session. */
    function GetSession(sessionId: string, now: int): (r: Option<SessionRow>)
      reads this
      ensures r.Some? <==> sessionId != "" && sessionId in sessions && now <= sessions[sessionId].expiresAt
      ensures r.Some? ==> r.value == SessionRow(sessionId, sessions[sessionId].expiresAt)
    {
      if sessionId == "" then None
      else if sessionId !in sessions then None
      else if sessions[sessionId].expiresAt < now then None
      else Some(SessionRow(sessionId, sessions[sessionId].expiresAt))
    }

    /**
     * `requestLoginLink()`: with no notifier configured it fails before
     * creating a token; otherwise it creates a token first, then fails when
     * `PUBLIC_BASE_URL` is missing; a NaN expiry, or one outside the range
     * of a `Date`, then throws while it is rendered (`toISOString` of an
     * invalid date); else it sends the login link to every notifier as a
     * `test` event.
     */
    method RequestLoginLink(env: Env, deliver: JsVal -> Outcome, token: string, now: int, toIso: int -> string)
      returns (r: LoginLinkResult)
      modifies this
      ensures !TelegramConfigured(env) ==> r == LinkFailed("no_notifiers_configured") && loginTokens == old(loginTokens)
      ensures var ttl := TtlMs(env, "LOGIN_TOKEN_TTL_MS", LOGIN_TOKEN_TTL_MS);
              TelegramConfigured(env) && token !in old(loginTokens) ==>
                loginTokens == old(loginTokens)[token := LoginToken(now, now + ttl, None)]
      ensures TelegramConfigured(env) && token in old(loginTokens) ==> r == LinkThrew && loginTokens == old(loginTokens)
      ensures TelegramConfigured(env) && token !in old(loginTokens) && BaseUrlFromEnv(env) == "" ==>
                r == LinkFailed("missing_PUBLIC_BASE_URL")
      ensures var ttl := TtlMs(env, "LOGIN_TOKEN_TTL_MS", LOGIN_TOKEN_TTL_MS);
              var text := LoginLinkText(toIso(now + ttl), LoginLink(BaseUrlFromEnv(env), token));
              TelegramConfigured(env) && token !in old(loginTokens) && BaseUrlFromEnv(env) != ""
              && TtlIsNumber(env, "LOGIN_TOKEN_TTL_MS", LOGIN_TOKEN_TTL_MS) && IsTimeValue(now + ttl) ==>
                r == LinkSent([ResultFor(TelegramNotifier(env, deliver).value, deliver(Str(text)))])
      ensures TelegramConfigured(env) && token !in old(loginTokens) && BaseUrlFromEnv(env) != ""
              && !TtlIsNumber(env, "LOGIN_TOKEN_TTL_MS", LOGIN_TOKEN_TTL_MS) ==>
                r == LinkThrew
      ensures var ttl := TtlMs(env, "LOGIN_TOKEN_TTL_MS", LOGIN_TOKEN_TTL_MS);
              TelegramConfigured(env) && token !in old(loginTokens) && BaseUrlFromEnv(env) != ""
              && !IsTimeValue(now + ttl) ==>
                r == LinkThrew
      ensures sessions == old(sessions)
    {
      var notifiers := GetNotifiersFromEnv(env, deliver);
      if !AnyNotifierConfigured(Some(notifiers)) {
        return LinkFailed("no_notifiers_configured");
      }
      var created := CreateLoginToken(env, token, now);
      if created.Err? {
        return LinkThrew;
      }
      var (tok, expiresAt) := created.value;
      var base := BaseUrlFromEnv(env);
      if base == "" {
        return LinkFailed("missing_PUBLIC_BASE_URL");
      }
      if !TtlIsNumber(env, "LOGIN_TOKEN_TTL_MS", LOGIN_TOKEN_TTL_MS) || !IsTimeValue(expiresAt) {
        return LinkThrew;
      }
      var link := base + "/auth/callback?token=" + tok;
      var text := LoginLinkText(toIso(expiresAt), link);
      assert LoginLinkLines(toIso(expiresAt), link)[0] == "Escalatex login link";
      assert text != "" by {
        JoinStartsWithFirst(LoginLinkLines(toIso(expiresAt), link), '\n');
      }
      var results := NotifyAll(notifiers, "test", Obj(map["text" := Str(text)]));
      TestEventText(env, deliver, text);
      assert results == [ResultFor(notifiers[0], deliver(Str(text)))];
      return LinkSent(results);
    }
  }
}
