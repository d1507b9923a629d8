/**
 * The provider and its acceptance policy: the single provider configured
 * through the environment, and `evaluateRequest`, which screens a request
 * against a blocklist of words and quotes a price no lower than the
 * provider's minimum.
 */
module Providers {
  import opened Wrappers
  import opened Strings
  import opened JsValue

  /** The provider record; every field but `id` comes from the environment, with a default. */
  datatype Provider = Provider(
    id: string,
    name: string,
    telegramChatId: string,
    solanaPayTo: string,
    defaultToken: string,
    minQuoteUsd: string,
    availability: string)

  const DEFAULT_PROVIDER_ID: string := "neojack"
  const DEFAULT_PAY_TO: string := "Bt6CgWWuvV2qjkbbVuwXhLptwMajZVerhAZCF7NA4VWW"
  const DEFAULT_MIN_QUOTE_USD: int := 25

  /** `process.env[key] || default`. */
  function EnvOr(env: Env, key: string, default: string): (v: string)
    ensures key in env && env[key] != "" ==> v == env[key]
    ensures !(key in env && env[key] != "") ==> v == default
  {
    if EnvStr(env, key) != "" then EnvStr(env, key) else default
  }

  /** `getProvider(providerId)`; an omitted id (None) is `neojack`. */
  function GetProvider(env: Env, providerId: Option<string>): (p: Provider)
    ensures p.id == providerId.GetOr(DEFAULT_PROVIDER_ID)
    ensures p.name == EnvOr(env, "PROVIDER_NAME", "Neojack")
    ensures p.telegramChatId == EnvStr(env, "PROVIDER_TELEGRAM_CHAT_ID")
    ensures p.solanaPayTo == EnvOr(env, "PROVIDER_SOL_ADDRESS", DEFAULT_PAY_TO)
    ensures p.defaultToken == EnvOr(env, "DEFAULT_PAYMENT_TOKEN", "USDC")
    ensures p.minQuoteUsd == EnvOr(env, "MIN_QUOTE_USD", "25")
    ensures p.availability == EnvOr(env, "PROVIDER_AVAILABILITY", "best-effort")
  {
    Provider(
      providerId.GetOr(DEFAULT_PROVIDER_ID),
      EnvOr(env, "PROVIDER_NAME", "Neojack"),
      EnvOr(env, "PROVIDER_TELEGRAM_CHAT_ID", ""),
      EnvOr(env, "PROVIDER_SOL_ADDRESS", DEFAULT_PAY_TO),
      EnvOr(env, "DEFAULT_PAYMENT_TOKEN", "USDC"),
      EnvOr(env, "MIN_QUOTE_USD", "25"),
      EnvOr(env, "PROVIDER_AVAILABILITY", "best-effort"))
  }

  const DISALLOWED: seq<string> := ["illegal", "malware", "exploit", "ddos", "hack"]
  const REJECTED_MESSAGE: string := "Not a supported request."
  const ACCEPTED_MESSAGE: string :=
    "Accepted. Pay to start. Response time best-effort; we will ping you on Telegram after payment."

  /**
   * The screened text: title, body and the comma-joined tags on three lines,
   * lower-cased.  Missing tags read as none; tags that are neither an array
   * nor falsy have no `join` and the call throws.
   */
  function ScreenedText(title: JsVal, body: JsVal, tags: JsVal): (r: Result<string, string>)
    ensures r.Err? <==> Truthy(tags) && !tags.Arr?
    ensures r.Ok? ==> r.value == Lower(ToStr(title)) + Lower("\n" + ToStr(body) + "\n" + (if tags.Arr? then ToStr(tags) else ""))
  {
    if Truthy(tags) && !tags.Arr? then Err("TypeError: tags.join is not a function")
    else
      var joined := if tags.Arr? then ToStr(tags) else "";
      LowerConcat(ToStr(title), "\n" + ToStr(body) + "\n" + joined);
      Ok(Lower(ToStr(title) + ("\n" + ToStr(body) + "\n" + joined)))
  }

  /** `disallowed.some((w) => t.includes(w))`. */
  predicate Blocked(t: string) {
    exists i :: 0 <= i < |DISALLOWED| && Contains(t, DISALLOWED[i])
  }

  /** `Number(process.env.MIN_QUOTE_USD || 25)`. */
  function MinQuote(env: Env): (m: JsVal)
    ensures EnvStr(env, "MIN_QUOTE_USD") == "" ==> m == Num(DEFAULT_MIN_QUOTE_USD)
    ensures m.Num? || m.NaN?
  {
    ToNumber(Or(EnvVal(env, "MIN_QUOTE_USD"), Num(DEFAULT_MIN_QUOTE_USD)))
  }

  /**
   * `bud && bud >= min ? bud : min` with `bud = budgetUsd ? Number(budgetUsd) : null`:
   * a given, non-zero budget that reaches the minimum is the quote; otherwise
   * the minimum is.
   */
  function Quote(env: Env, budgetUsd: JsVal): (q: JsVal)
    ensures q.Num? || q.NaN?
  {
    var min := MinQuote(env);
    var bud := if Truthy(budgetUsd) then ToNumber(budgetUsd) else Null;
    if Truthy(bud) && bud.Num? && min.Num? && bud.n >= min.n then bud else min
  }

  /** What `evaluateRequest` returns; `quoteUsd` is None for null. */
  datatype Evaluation = Evaluation(accepted: bool, quoteUsd: Option<string>, message: string)

  /**
   * `evaluateRequest({title, body, tags, budgetUsd})`: rejected exactly when
   * the screened text holds a blocked word, otherwise accepted with the
   * quote rendered by `String()`.
   */
  function EvaluateRequest(env: Env, title: JsVal, body: JsVal, tags: JsVal, budgetUsd: JsVal)
    : (r: Result<Evaluation, string>)
    ensures r.Err? <==> ScreenedText(title, body, tags).Err?
    ensures r.Ok? ==> (r.value.accepted <==> !Blocked(ScreenedText(title, body, tags).value))
    ensures r.Ok? && !r.value.accepted ==> r.value == Evaluation(false, None, REJECTED_MESSAGE)
    ensures r.Ok? && r.value.accepted ==> r.value == Evaluation(true, Some(ToStr(Quote(env, budgetUsd))), ACCEPTED_MESSAGE)
  {
    match ScreenedText(title, body, tags)
    case Err(e) => Err(e)
    case Ok(t) =>
      if Blocked(t) then Ok(Evaluation(false, None, REJECTED_MESSAGE))
      else Ok(Evaluation(true, Some(ToStr(Quote(env, budgetUsd))), ACCEPTED_MESSAGE))
  }

  /**
   * The quote is the budget when it is a non-zero number reaching the
   * minimum, and the minimum otherwise; so it never falls below the minimum.
   */
  lemma QuoteAtLeastMin(env: Env, budgetUsd: JsVal)
    requires MinQuote(env).Num?
    ensures var m := MinQuote(env).n;
            var q := Quote(env, budgetUsd);
            q.Num? && q.n >= m
            && (q.n != m ==> Truthy(budgetUsd) && ToNumber(budgetUsd) == q)
            && (Truthy(budgetUsd) && ToNumber(budgetUsd).Num? && ToNumber(budgetUsd).n >= m && ToNumber(budgetUsd).n != 0
                ==> q == ToNumber(budgetUsd))
  {
  }

  /** With no minimum configured, a budget of 30 is quoted as "30" and a budget of 10 as "25". */
  lemma DefaultMinimumQuotes(env: Env)
    requires EnvStr(env, "MIN_QUOTE_USD") == ""
    ensures ToStr(Quote(env, Num(30))) == "30"
    ensures ToStr(Quote(env, Num(10))) == "25"
    ensures ToStr(Quote(env, Undefined)) == "25"
  {
    assert NatToString(30) == NatToString(3) + [DigitChar(0)];
    assert NatToString(25) == NatToString(2) + [DigitChar(5)];
  }

  /** The minimum `evaluateRequest` enforces is the number the provider record advertises. */
  lemma AdvertisedMinimumEnforced(env: Env)
    ensures MinQuote(env) == ToNumber(Str(GetProvider(env, None).minQuoteUsd))
  {
    if EnvStr(env, "MIN_QUOTE_USD") == "" {
      NumberOfString(DEFAULT_MIN_QUOTE_USD);
      assert ToStr(Num(DEFAULT_MIN_QUOTE_USD)) == "25" by {
        assert NatToString(25) == NatToString(2) + [DigitChar(5)];
      }
    }
  }

  /**
   * A request is rejected whenever its title holds a blocked word in any
   * letter case: the word may sit inside a longer word, so "Hackathon" is
   * rejected too.
   */
  lemma BlockedTitleRejected(env: Env, title: string, body: JsVal, tags: JsVal, budgetUsd: JsVal, u: string, i: nat)
    requires i < |DISALLOWED| && Lower(u) == DISALLOWED[i] && Contains(title, u)
    requires !Truthy(tags) || tags.Arr?
    ensures EvaluateRequest(env, Str(title), body, tags, budgetUsd) == Ok(Evaluation(false, None, REJECTED_MESSAGE))
  {
    var rest := "\n" + ToStr(body) + "\n" + (if tags.Arr? then ToStr(tags) else "");
    var t := ScreenedText(Str(title), body, tags).value;
    assert t == Lower(title) + Lower(rest);
    LowerKeepsSubstring(title, u);
    ContainsConcat("", Lower(title), Lower(rest));
    assert "" + Lower(title) + Lower(rest) == t;
    ContainsTransitive(t, Lower(title), DISALLOWED[i]);
    assert Blocked(t);
  }

  lemma HackathonRejected(env: Env)
    ensures EvaluateRequest(env, Str("Hackathon judging help"), Str("need a reviewer"), Undefined, Num(100))
            == Ok(Evaluation(false, None, REJECTED_MESSAGE))
  {
    assert StartsWith("Hackathon judging help", "Hack");
    BlockedTitleRejected(env, "Hackathon judging help", Str("need a reviewer"), Undefined, Num(100), "Hack", 4);
  }

  /** A request none of whose fields holds a blocked word is accepted. */
  lemma CleanRequestAccepted(env: Env, title: JsVal, body: JsVal, tags: JsVal, budgetUsd: JsVal)
    requires ScreenedText(title, body, tags).Ok?
    requires forall i :: 0 <= i < |DISALLOWED| ==> !Contains(ScreenedText(title, body, tags).value, DISALLOWED[i])
    ensures EvaluateRequest(env, title, body, tags, budgetUsd).Ok?
    ensures EvaluateRequest(env, title, body, tags, budgetUsd).value.accepted
  {
  }
}
